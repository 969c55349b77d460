/**
 The fluent span builder (sdk-ts/src/span-builder.ts).  A builder owns one mutable
 record and one mutable attribute object; `build` copies both, so a span handed to the
 client no longer changes.
 */
module SpanBuilders {
  import opened Prelude
  import opened Spans
  import Otlp

  type Entries = seq<(string, JsValue)>

  /** An array index: digits without a leading zero, below 2^32 - 1. */
  predicate IsIndex(key: string) {
    key != "" && Otlp.AllDigits(key) && (|key| == 1 || key[0] != '0') && Otlp.DigitsValue(key) < 4_294_967_295
  }

  /** `key` comes after `other` when both are new: indices first, by size. */
  predicate GoesAfter(key: string, other: string) {
    !IsIndex(key) || (IsIndex(other) && Otlp.DigitsValue(other) < Otlp.DigitsValue(key))
  }

  predicate Has(es: Entries, key: string) {
    exists i :: 0 <= i < |es| && es[i].0 == key
  }

  function Replace(es: Entries, key: string, v: JsValue): Entries {
    if es == [] then [] else if es[0].0 == key then [(key, v)] + es[1..] else [es[0]] + Replace(es[1..], key, v)
  }

  function Insert(es: Entries, key: string, v: JsValue): Entries {
    if es == [] || !GoesAfter(key, es[0].0) then [(key, v)] + es else [es[0]] + Insert(es[1..], key, v)
  }

  /** Assigning to this key sets the prototype, or nothing, and never a property of the object. */
  const PROTOTYPE := "__proto__"

  /** Assignment to a property: the value changes in place, a new key goes to its place. */
  function Put(es: Entries, key: string, v: JsValue): Entries {
    if key == PROTOTYPE then es
    else if Has(es, key) then Replace(es, key, v) else Insert(es, key, v)
  }

  function Get(es: Entries, key: string): Option<JsValue> {
    if es == [] then None else if es[0].0 == key then Some(es[0].1) else Get(es[1..], key)
  }

  /** The order in which JavaScript lists properties, and no key twice. */
  ghost predicate Listed(es: Entries) {
    forall i, j :: 0 <= i < j < |es| ==> es[i].0 != es[j].0 && GoesAfter(es[j].0, es[i].0)
  }

  lemma {:induction false} ReplaceFacts(es: Entries, key: string, v: JsValue, other: string)
    requires Has(es, key)
    ensures Get(Replace(es, key, v), other) == if other == key then Some(v) else Get(es, other)
    ensures |Replace(es, key, v)| == |es| && forall i :: 0 <= i < |es| ==> Replace(es, key, v)[i].0 == es[i].0
  {
    if es[0].0 != key {
      var i :| 0 <= i < |es| && es[i].0 == key;
      assert es[1..][i - 1].0 == key;
      ReplaceFacts(es[1..], key, v, other);
      assert forall i :: 1 <= i < |es| ==> Replace(es, key, v)[i] == Replace(es[1..], key, v)[i - 1];
    }
  }

  lemma {:induction false} NotInRest(es: Entries, key: string)
    requires es != [] && !Has(es, key)
    ensures es[0].0 != key && !Has(es[1..], key)
  {
    assert forall i :: 0 <= i < |es| - 1 ==> es[1..][i] == es[i + 1];
  }

  lemma {:induction false} InsertGet(es: Entries, key: string, v: JsValue, other: string)
    requires !Has(es, key)
    ensures Get(Insert(es, key, v), other) == if other == key then Some(v) else Get(es, other)
  {
    hide Has, GoesAfter;
    if es == [] || !GoesAfter(key, es[0].0) {
      NotHad(es, key);
    } else {
      NotInRest(es, key);
      InsertGet(es[1..], key, v, other);
    }
  }

  lemma {:induction false} InsertPlace(es: Entries, key: string, v: JsValue) returns (at: nat)
    ensures at <= |es| && Insert(es, key, v) == es[..at] + [(key, v)] + es[at..]
    ensures forall i :: 0 <= i < at ==> GoesAfter(key, es[i].0)
    ensures at < |es| ==> !GoesAfter(key, es[at].0)
  {
    hide GoesAfter;
    if es == [] || !GoesAfter(key, es[0].0) {
      at := 0;
    } else {
      var k := InsertPlace(es[1..], key, v);
      at := k + 1;
      assert es[..at] == [es[0]] + es[1..][..k] && es[at..] == es[1..][k..];
      assert forall i :: 1 <= i < at ==> es[i] == es[1..][i - 1];
    }
  }

  lemma {:induction false} NotHad(es: Entries, key: string)
    requires !Has(es, key)
    ensures Get(es, key) == None
  {
    if es != [] {
      NotInRest(es, key);
      NotHad(es[1..], key);
    }
  }

  /**
   Putting a key other than the prototype is seen under that key and under no other; the other keys
   keep their order, and a new one takes the place that JavaScript lists it in.
   */
  lemma {:induction false} PutGet(es: Entries, key: string, v: JsValue, other: string)
    ensures Get(Put(es, key, v), other) == if other == key && key != PROTOTYPE then Some(v) else Get(es, other)
    ensures Has(es, key) ==> |Put(es, key, v)| == |es| && forall i :: 0 <= i < |es| ==> Put(es, key, v)[i].0 == es[i].0
    ensures key == PROTOTYPE ==> Put(es, key, v) == es
    ensures key != PROTOTYPE && !Has(es, key) ==>
              exists at :: 0 <= at <= |es| && Put(es, key, v) == es[..at] + [(key, v)] + es[at..]
    ensures Listed(es) ==> Listed(Put(es, key, v))
  {
    if key == PROTOTYPE {
    } else if Has(es, key) {
      ReplaceFacts(es, key, v, other);
    } else {
      InsertGet(es, key, v, other);
      var at := InsertPlace(es, key, v);
      if Listed(es) {
        InsertKeepsOrder(es, key, v, at);
      }
    }
  }

  lemma {:induction false} InsertKeepsOrder(es: Entries, key: string, v: JsValue, at: nat)
    requires Listed(es) && !Has(es, key) && at <= |es|
    requires forall i :: 0 <= i < at ==> GoesAfter(key, es[i].0)
    requires at < |es| ==> !GoesAfter(key, es[at].0)
    ensures Listed(es[..at] + [(key, v)] + es[at..])
  {
    var n := es[..at] + [(key, v)] + es[at..];
    forall i, j | 0 <= i < j < |n| ensures n[i].0 != n[j].0 && GoesAfter(n[j].0, n[i].0) {
      if i == at {
        LaterStays(es, key, at, j - 1);
      } else if j == at {
        assert n[i] == es[i];
      } else {
        assert n[i] == es[if i < at then i else i - 1] && n[j] == es[if j < at then j else j - 1];
      }
    }
  }

  lemma {:induction false} LaterStays(es: Entries, key: string, at: nat, k: nat)
    requires Listed(es) && !Has(es, key) && at <= k < |es| && !GoesAfter(key, es[at].0)
    ensures key != es[k].0 && GoesAfter(es[k].0, key)
  {
    if k > at {
      assert GoesAfter(es[k].0, es[at].0);
    }
    if IsIndex(es[at].0) && Otlp.DigitsValue(key) == Otlp.DigitsValue(es[at].0) {
      SameIndex(key, es[at].0);
    }
    assert key != es[at].0 && key != es[k].0;
  }

  lemma {:induction false} CanonicalText(s: string)
    requires s != "" && Otlp.AllDigits(s) && (|s| == 1 || s[0] != '0')
    ensures Otlp.NatToString(Otlp.DigitsValue(s)) == s
    ensures |s| > 1 ==> Otlp.DigitsValue(s) >= 10
  {
    var front, last := s[..|s| - 1], s[|s| - 1];
    var d := Otlp.DigitValue(last);
    if |s| == 1 {
      assert front == "";
    } else {
      CanonicalText(front);
      if |front| == 1 {
        assert front[..0] == "" && front[0] != '0';
      }
      assert Otlp.DigitsValue(s) / 10 == Otlp.DigitsValue(front) && Otlp.DigitsValue(s) % 10 == d;
      assert s == front + [last];
    }
  }

  lemma {:induction false} SameIndex(a: string, b: string)
    requires IsIndex(a) && IsIndex(b) && Otlp.DigitsValue(a) == Otlp.DigitsValue(b)
    ensures a == b
  {
    CanonicalText(a);
    CanonicalText(b);
  }

  lemma {:induction false} IndexMeans(key: string)
    ensures IsIndex(key) <==> exists n: nat :: n < 4_294_967_295 && key == Otlp.NatToString(n)
    ensures IsIndex(key) ==> key == Otlp.NatToString(Otlp.DigitsValue(key))
  {
    hide Otlp.NatToString, Otlp.DigitsValue;
    if IsIndex(key) {
      CanonicalText(key);
    }
    if n: nat :| n < 4_294_967_295 && key == Otlp.NatToString(n) {
      Otlp.NatRoundTrip(n);
      NoLeadingZero(n);
    }
  }

  lemma {:induction false} NoLeadingZero(n: nat)
    ensures var s := Otlp.NatToString(n); |s| > 1 ==> s[0] != '0'
  {
    if n >= 10 {
      NoLeadingZero(n / 10);
      LeadingDigit(n / 10);
    }
  }

  lemma {:induction false} LeadingDigit(n: nat)
    requires n > 0
    ensures Otlp.NatToString(n) != "" && Otlp.NatToString(n)[0] != '0'
  {
    if n >= 10 {
      LeadingDigit(n / 10);
    }
  }

  /** In front of a key that is a small number stand only smaller numbers. */
  lemma {:induction false} NumbersFirst(es: Entries, i: nat, j: nat, n: nat)
    requires Listed(es) && i < j < |es| && n < 4_294_967_295 && es[j].0 == Otlp.NatToString(n)
    ensures exists m: nat :: m < n && es[i].0 == Otlp.NatToString(m)
  {
    hide Otlp.NatToString, Otlp.DigitsValue;
    IndexMeans(es[j].0);
    IndexMeans(es[i].0);
    Otlp.NatRoundTrip(n);
    assert GoesAfter(es[j].0, es[i].0);
  }

  /** A new key that is no small number comes last. */
  lemma {:induction false} NewNameLast(es: Entries, key: string, v: JsValue)
    requires key != "__proto__" && !Has(es, key) && forall n: nat :: n < 4_294_967_295 ==> key != Otlp.NatToString(n)
    ensures Put(es, key, v) == es + [(key, v)]
  {
    hide Otlp.NatToString, Otlp.DigitsValue, IsIndex;
    IndexMeans(key);
    InsertedLast(es, key, v);
  }

  lemma {:induction false} InsertedLast(es: Entries, key: string, v: JsValue)
    requires !IsIndex(key)
    ensures Insert(es, key, v) == es + [(key, v)]
  {
    hide IsIndex;
    if es != [] {
      InsertedLast(es[1..], key, v);
    }
  }

  /** The dates a `Date` can hold, in milliseconds around 1970. */
  const MAX_TIME := 8_640_000_000_000_000

  /** Dates as the runtime reads and writes them; None stands for an invalid date. */
  datatype Calendar = Calendar(read: string -> Option<int>, write: int -> string)

  /** What a number of milliseconds can be: a real number, or NaN or an infinity. */
  datatype Duration = NotFinite | Millis(ms: real)

  /** Toward zero, as a `Date` takes a fraction of a millisecond. */
  function Truncated(x: real): (n: int)
    ensures x >= 0.0 ==> n as real <= x < n as real + 1.0
    ensures x <= 0.0 ==> n as real - 1.0 < x <= n as real
  {
    if x >= 0.0 then x.Floor else -((-x).Floor)
  }

  /** The time `d` after `start`; None where there is no such date. */
  function TimeAfter(start: int, d: Duration): Option<int> {
    match d
    case NotFinite => None
    case Millis(ms) =>
      var end := start as real + ms;
      if -MAX_TIME as real <= end <= MAX_TIME as real then Some(Truncated(end)) else None
  }

  class Attributes {
    var entries: Entries

    constructor (es: Entries)
      ensures entries == es
    {
      entries := es;
    }
  }

  /** The record behind a span: `fields` are its scalar properties. */
  datatype Fields = Fields(
    spanId: string,
    traceId: string,
    parentSpanId: Option<string>,
    name: string,
    kind: SpanKind,
    statusCode: SpanStatus,
    statusMessage: Option<string>,
    startTime: string,
    endTime: Option<string>,
    durationMs: Option<Duration>,
    agentId: Option<string>,
    sessionId: Option<string>,
    conversationId: Option<string>)

  /** One call of a setter.  Attribute stands for `attribute` and for the setters that fix its key. */
  datatype Setter =
    | TraceId(id: string)
    | SpanId(id: string)
    | ParentSpanId(id: string)
    | Kind(kind: SpanKind)
    | Status(code: SpanStatus, message: Option<string>)
    | StartTime(iso: string)
    | EndTime(iso: string)
    | DurationMs(ms: Duration)
    | AgentId(id: string)
    | SessionId(id: string)
    | ConversationId(id: string)
    | Attribute(key: string, value: JsValue)

  /** What a reader of the object sees. */
  type Snapshot = (Fields, Entries)

  function AfterSetter(st: Snapshot, s: Setter): Snapshot {
    var (f, es) := st;
    match s
    case TraceId(id) => (f.(traceId := id), es)
    case SpanId(id) => (f.(spanId := id), es)
    case ParentSpanId(id) => (f.(parentSpanId := Some(id)), es)
    case Kind(k) => (f.(kind := k), es)
    case Status(code, m) =>
      (f.(statusCode := code, statusMessage := if m in {None, Some("")} then f.statusMessage else m), es)
    case StartTime(iso) => (f.(startTime := iso), es)
    case EndTime(iso) => (f.(endTime := Some(iso)), es)
    case DurationMs(ms) => (f.(durationMs := Some(ms)), es)
    case AgentId(id) => (f.(agentId := Some(id)), Put(es, "gen_ai.agent.id", Str(id)))
    case SessionId(id) => (f.(sessionId := Some(id)), Put(es, "gen_ai.session.id", Str(id)))
    case ConversationId(id) => (f.(conversationId := Some(id)), Put(es, "gen_ai.conversation.id", Str(id)))
    case Attribute(key, v) => (f, Put(es, key, v))
  }

  function AfterSetters(st: Snapshot, ss: seq<Setter>): Snapshot {
    if ss == [] then st else AfterSetter(AfterSetters(st, ss[..|ss| - 1]), ss[|ss| - 1])
  }

  /** The end time of the span that `build` makes; None where it throws. */
  function BuiltEnd(cal: Calendar, f: Fields): Option<Option<string>> {
    if f.endTime !in {None, Some("")} || f.durationMs.None? then Some(f.endTime)
    else match cal.read(f.startTime)
      case None => None
      case Some(start) =>
        match TimeAfter(start, f.durationMs.value)
        case Some(end) => Some(Some(cal.write(end)))
        case None => None
  }

  class SpanObject {
    var fields: Fields
    var attributes: Attributes

    constructor (f: Fields, a: Attributes)
      ensures fields == f && attributes == a
    {
      fields := f;
      attributes := a;
    }

    ghost function Seen(): Snapshot
      reads this, attributes
    {
      (fields, attributes.entries)
    }
  }

  class SpanBuilder {
    var span: SpanObject

    constructor (name: string, spanId: string, traceId: string, now: string)
      ensures fresh(span) && fresh(span.attributes)
      ensures span.Seen() ==
              (Fields(spanId, traceId, None, name, Client, StatusOk, None, now, None, None, None, None, None), [])
    {
      var a := new Attributes([]);
      span := new SpanObject(
        Fields(spanId, traceId, None, name, Client, StatusOk, None, now, None, None, None, None, None), a);
    }

    /** One setter; each of them changes the one record the builder owns. */
    method Set(s: Setter)
      modifies span`fields, span.attributes
      ensures span.Seen() == AfterSetter(old(span.Seen()), s)
    {
      match s {
        case TraceId(id) => span.fields := span.fields.(traceId := id);
        case SpanId(id) => span.fields := span.fields.(spanId := id);
        case ParentSpanId(id) => span.fields := span.fields.(parentSpanId := Some(id));
        case Kind(k) => span.fields := span.fields.(kind := k);
        case Status(code, message) =>
          span.fields := span.fields.(statusCode := code);
          if message != None && message != Some("") {
            span.fields := span.fields.(statusMessage := message);
          }
        case StartTime(iso) => span.fields := span.fields.(startTime := iso);
        case EndTime(iso) => span.fields := span.fields.(endTime := Some(iso));
        case DurationMs(ms) => span.fields := span.fields.(durationMs := Some(ms));
        case AgentId(id) =>
          span.fields := span.fields.(agentId := Some(id));
          Assign("gen_ai.agent.id", Str(id));
        case SessionId(id) =>
          span.fields := span.fields.(sessionId := Some(id));
          Assign("gen_ai.session.id", Str(id));
        case ConversationId(id) =>
          span.fields := span.fields.(conversationId := Some(id));
          Assign("gen_ai.conversation.id", Str(id));
        case Attribute(key, v) => Assign(key, v);
      }
    }

    method Assign(key: string, v: JsValue)
      modifies span.attributes
      ensures span.attributes.entries == Put(old(span.attributes.entries), key, v)
    {
      span.attributes.entries := Put(span.attributes.entries, key, v);
    }

    method SetAll(setters: seq<Setter>)
      modifies span`fields, span.attributes
      ensures span.Seen() == AfterSetters(old(span.Seen()), setters)
    {
      for i := 0 to |setters|
        invariant span.Seen() == AfterSetters(old(span.Seen()), setters[..i])
      {
        assert setters[..i + 1][..i] == setters[..i];
        Set(setters[i]);
      }
      assert setters[..|setters|] == setters;
    }

    /**
     A copy whose record and attribute object are both new.  The end time is the start plus the
     duration when only a duration is known; None means that an unreadable start, a duration that is no
     number or an end out of range made the call throw.
     */
    method Build(cal: Calendar) returns (r: Option<SpanObject>)
      ensures r == None <==> && span.fields.endTime in {None, Some("")}
                             && span.fields.durationMs.Some?
                             && (var start, d := cal.read(span.fields.startTime), span.fields.durationMs.value;
                                 start == None || d.NotFinite?
                                 || !(-MAX_TIME as real <= start.value as real + d.ms <= MAX_TIME as real))
      ensures r.Some? ==>
                && fresh(r.value) && fresh(r.value.attributes)
                && r.value.Seen()
                   == (span.fields.(endTime := BuiltEnd(cal, span.fields).value), span.attributes.entries)
    {
      var f := span.fields;
      var endTime := f.endTime;
      if (f.endTime == None || f.endTime == Some("")) && f.durationMs.Some? {
        match cal.read(f.startTime) {
          case None => return None;
          case Some(start) =>
            var end := TimeAfter(start, f.durationMs.value);
            if end == None {
              return None;
            }
            endTime := Some(cal.write(end.value));
        }
      }
      var a := new Attributes(span.attributes.entries);
      var s := new SpanObject(f.(endTime := endTime), a);
      return Some(s);
    }
  }

  /**
   A built span is a snapshot: whatever setters are called on the builder afterwards, they reach the
   next span built and never the one already handed over.
   */
  method BuiltSpansAreSnapshots(b: SpanBuilder, cal: Calendar, setters: seq<Setter>)
    returns (first: Option<SpanObject>, second: Option<SpanObject>)
    modifies b.span, b.span.attributes
    ensures var st := old(b.span.Seen());
            first.Some? ==> BuiltEnd(cal, st.0).Some?
                            && first.value.Seen() == (st.0.(endTime := BuiltEnd(cal, st.0).value), st.1)
    ensures var st := AfterSetters(old(b.span.Seen()), setters);
            second.Some? ==> BuiltEnd(cal, st.0).Some?
                             && second.value.Seen() == (st.0.(endTime := BuiltEnd(cal, st.0).value), st.1)
    ensures first.Some? && second.Some? ==>
              first.value != second.value && first.value.attributes != second.value.attributes
  {
    first := b.Build(cal);
    b.SetAll(setters);
    second := b.Build(cal);
  }

  // ---------------------------------------------------------------------
  // What the fields of a span are, after any setters
  // ---------------------------------------------------------------------

  /** The property a call assigns, under its own name or among the attributes. */
  function Assigned(s: Setter): Option<(string, JsValue)> {
    match s
    case AgentId(id) => Some(("gen_ai.agent.id", Str(id)))
    case SessionId(id) => Some(("gen_ai.session.id", Str(id)))
    case ConversationId(id) => Some(("gen_ai.conversation.id", Str(id)))
    case Attribute(key, v) => Some((key, v))
    case _ => None
  }

  /** The field holds what the last of its own calls said. */
  ghost predicate Says(f: Fields, s: Setter) {
    match s
    case TraceId(id) => f.traceId == id
    case SpanId(id) => f.spanId == id
    case ParentSpanId(id) => f.parentSpanId == Some(id)
    case Kind(k) => f.kind == k
    case Status(code, m) => f.statusCode == code && (m in {None, Some("")} || f.statusMessage == m)
    case StartTime(iso) => f.startTime == iso
    case EndTime(iso) => f.endTime == Some(iso)
    case DurationMs(ms) => f.durationMs == Some(ms)
    case AgentId(id) => f.agentId == Some(id)
    case SessionId(id) => f.sessionId == Some(id)
    case ConversationId(id) => f.conversationId == Some(id)
    case Attribute(_, _) => true
  }

  /** Two calls of one setter. */
  predicate SameCall(s: Setter, t: Setter) {
    match (s, t)
    case (TraceId(_), TraceId(_)) => true
    case (SpanId(_), SpanId(_)) => true
    case (ParentSpanId(_), ParentSpanId(_)) => true
    case (Kind(_), Kind(_)) => true
    case (Status(_, _), Status(_, _)) => true
    case (StartTime(_), StartTime(_)) => true
    case (EndTime(_), EndTime(_)) => true
    case (DurationMs(_), DurationMs(_)) => true
    case (AgentId(_), AgentId(_)) => true
    case (SessionId(_), SessionId(_)) => true
    case (ConversationId(_), ConversationId(_)) => true
    case _ => false
  }

  lemma {:induction false} OtherFieldsStay(st: Snapshot, s: Setter, t: Setter)
    requires Says(st.0, s) && !SameCall(s, t)
    ensures Says(AfterSetter(st, t).0, s)
  {}

  lemma {:induction false} SaysAtOnce(st: Snapshot, s: Setter)
    ensures Says(AfterSetter(st, s).0, s)
  {}

  /** Each field is what the last call of its own setter said, whatever other calls come after it. */
  lemma {:induction false} LastCallWins(st: Snapshot, ss: seq<Setter>, i: nat)
    requires i < |ss| && forall j :: i < j < |ss| ==> !SameCall(ss[i], ss[j])
    ensures Says(AfterSetters(st, ss).0, ss[i])
  {
    hide AfterSetter, Says, SameCall;
    var front, last := ss[..|ss| - 1], ss[|ss| - 1];
    if i == |ss| - 1 {
      SaysAtOnce(AfterSetters(st, front), last);
    } else {
      LastCallWins(st, front, i);
      OtherFieldsStay(AfterSetters(st, front), ss[i], last);
    }
  }

  /** The field of this setter is the same in both. */
  ghost predicate SameField(f: Fields, g: Fields, s: Setter) {
    match s
    case TraceId(_) => f.traceId == g.traceId
    case SpanId(_) => f.spanId == g.spanId
    case ParentSpanId(_) => f.parentSpanId == g.parentSpanId
    case Kind(_) => f.kind == g.kind
    case Status(_, _) => f.statusCode == g.statusCode && f.statusMessage == g.statusMessage
    case StartTime(_) => f.startTime == g.startTime
    case EndTime(_) => f.endTime == g.endTime
    case DurationMs(_) => f.durationMs == g.durationMs
    case AgentId(_) => f.agentId == g.agentId
    case SessionId(_) => f.sessionId == g.sessionId
    case ConversationId(_) => f.conversationId == g.conversationId
    case Attribute(_, _) => true
  }

  lemma {:induction false} OneCallElsewhere(st: Snapshot, s: Setter, t: Setter)
    requires !SameCall(s, t)
    ensures SameField(st.0, AfterSetter(st, t).0, s)
  {
    hide Put;
  }

  lemma {:induction false} NameStays(st: Snapshot, t: Setter)
    ensures AfterSetter(st, t).0.name == st.0.name
  {
    hide Put;
  }

  lemma {:induction false} SameFields(f: Fields, g: Fields, h: Fields, s: Setter)
    ensures SameField(f, f, s)
    ensures SameField(f, g, s) && SameField(g, h, s) ==> SameField(f, h, s)
  {}

  /** The name never changes, and a field whose setter is not called keeps its first value. */
  lemma {:induction false} UncalledFieldsStay(st: Snapshot, ss: seq<Setter>, s: Setter)
    ensures AfterSetters(st, ss).0.name == st.0.name
    ensures (forall j :: 0 <= j < |ss| ==> !SameCall(s, ss[j])) ==> SameField(st.0, AfterSetters(st, ss).0, s)
  {
    hide AfterSetter, SameField, SameCall;
    SameFields(st.0, st.0, st.0, s);
    if ss != [] {
      var front, last := ss[..|ss| - 1], ss[|ss| - 1];
      UncalledFieldsStay(st, front, s);
      NameStays(AfterSetters(st, front), last);
      if !SameCall(s, last) {
        OneCallElsewhere(AfterSetters(st, front), s, last);
        SameFields(st.0, AfterSetters(st, front).0, AfterSetters(st, ss).0, s);
      }
    }
  }

  /** An attribute is what the last call that assigns its key said; without such a call it stays as it was. */
  lemma {:induction false} LastAssignmentWins(st: Snapshot, ss: seq<Setter>, key: string)
    requires key != PROTOTYPE
    ensures forall i :: 0 <= i < |ss| && Assigned(ss[i]).Some? && Assigned(ss[i]).value.0 == key
                        && (forall j :: i < j < |ss| ==> Assigned(ss[j]).None? || Assigned(ss[j]).value.0 != key) ==>
                          Get(AfterSetters(st, ss).1, key) == Some(Assigned(ss[i]).value.1)
    ensures (forall i :: 0 <= i < |ss| ==> Assigned(ss[i]).None? || Assigned(ss[i]).value.0 != key) ==>
              Get(AfterSetters(st, ss).1, key) == Get(st.1, key)
  {
    hide Put, Get;
    if ss != [] {
      var front, last := ss[..|ss| - 1], ss[|ss| - 1];
      LastAssignmentWins(st, front, key);
      assert forall i :: 0 <= i < |front| ==> front[i] == ss[i];
      if Assigned(last).Some? {
        PutGet(AfterSetters(st, front).1, Assigned(last).value.0, Assigned(last).value.1, key);
        AssignsOne(AfterSetters(st, front), last);
      } else {
        AssignsNone(AfterSetters(st, front), last);
      }
    }
  }

  lemma {:induction false} AssignsOne(st: Snapshot, s: Setter)
    requires Assigned(s).Some?
    ensures AfterSetter(st, s).1 == Put(st.1, Assigned(s).value.0, Assigned(s).value.1)
  {
    hide Put;
  }

  lemma {:induction false} AssignsNone(st: Snapshot, s: Setter)
    requires Assigned(s).None?
    ensures AfterSetter(st, s).1 == st.1
  {
    hide Put;
  }

  /**
   The end of a span that was given only a duration: the start and whole milliseconds of it, cut off
   toward zero; an end that was given stays.
   */
  lemma {:induction false} EndIsStartAndDuration(cal: Calendar, f: Fields, start: int, ms: real, n: int)
    requires cal.read(f.startTime) == Some(start) && f.durationMs == Some(Millis(ms))
    requires -8_640_000_000_000_000.0 <= start as real + ms <= 8_640_000_000_000_000.0
    requires if start as real + ms >= 0.0 then n as real <= start as real + ms < n as real + 1.0
             else n as real - 1.0 < start as real + ms <= n as real
    ensures BuiltEnd(cal, f)
         == Some(if f.endTime == None || f.endTime == Some("") then Some(cal.write(n)) else f.endTime)
  {
    assert Truncated(start as real + ms) == n;
  }
}
