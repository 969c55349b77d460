/**
 OTLP JSON encoding of spans (sdk-ts/src/client.ts), with the reader an OTLP server
 applies to it.  Integers travel as decimal strings (section "JSON Protobuf Encoding"
 of the OTLP specification).
 */
module Otlp {
  import opened Prelude
  import opened Spans
  import Doubles

  datatype OtlpValue =
    | StringValue(s: string)
    | IntValue(text: string)
    | DoubleValue(x: real)
    | DoubleNull
    | BoolValue(b: bool)
    | ArrayValue(values: seq<OtlpValue>)

  // ---------------------------------------------------------------------
  // Decimal numerals
  // ---------------------------------------------------------------------

  function Digit(d: nat): char
    requires d < 10
  {
    '0' + d as char
  }

  predicate IsDigit(c: char) { '0' <= c <= '9' }

  function DigitValue(c: char): nat
    requires IsDigit(c)
  {
    c as int - '0' as int
  }

  function NatToString(n: nat): string {
    if n < 10 then [Digit(n)] else NatToString(n / 10) + [Digit(n % 10)]
  }

  function IntToString(n: int): string {
    if n < 0 then "-" + NatToString(-n) else NatToString(n)
  }

  predicate AllDigits(s: string) { forall k :: 0 <= k < |s| ==> IsDigit(s[k]) }

  function DigitsValue(s: string): nat
    requires AllDigits(s)
  {
    if s == [] then 0 else 10 * DigitsValue(s[..|s| - 1]) + DigitValue(s[|s| - 1])
  }

  /** An optional minus sign and one or more digits; anything else is not a decimal integer. */
  function ParseInt(s: string): Option<int> {
    if s != [] && s[0] == '-' then
      if |s| > 1 && AllDigits(s[1..]) then Some(0 - DigitsValue(s[1..])) else None
    else if s != [] && AllDigits(s) then Some(DigitsValue(s))
    else None
  }

  lemma {:induction false} NatRoundTrip(n: nat)
    ensures NatToString(n) != [] && AllDigits(NatToString(n)) && DigitsValue(NatToString(n)) == n
  {
    if n < 10 {
      assert NatToString(n)[..0] == [];
    } else {
      NatRoundTrip(n / 10);
      var s := NatToString(n);
      assert s[..|s| - 1] == NatToString(n / 10);
      assert forall k :: 0 <= k < |s| - 1 ==> s[k] == NatToString(n / 10)[k];
    }
  }

  // ---------------------------------------------------------------------
  // Values
  // ---------------------------------------------------------------------

  function StripZeros(s: string): string {
    if |s| > 1 && s[|s| - 1] == '0' then StripZeros(s[..|s| - 1]) else s
  }

  function Pointed(m: string): string {
    if |m| <= 1 then m else m[..1] + "." + m[1..]
  }

  /** Scientific notation, as `String` writes numbers of 22 digits and more. */
  function Exponential(v: nat): string {
    var digits := NatToString(v);
    var m := StripZeros(digits);
    Pointed(m) + "e+" + NatToString(if |digits| > 0 then |digits| - 1 else 0)
  }

  function Magnitude(n: int): nat { if n < 0 then -n else n }

  function MagnitudeText(v: nat): string {
    if v < Doubles.TEN21 then NatToString(v) else Exponential(v)
  }

  /** JavaScript's `String(n)` for a number that is an integer. */
  function NumberText(n: int): string {
    (if n < 0 then "-" else "") + MagnitudeText(Doubles.Shortest(Magnitude(n)))
  }

  function ToOtlpValue(v: JsValue): OtlpValue
    requires Encodable(v)
  {
    match v
    case Str(s) => StringValue(s)
    case Int(n) => IntValue(NumberText(n))
    case Frac(x) => DoubleValue(x)
    case NotFinite => DoubleNull
    case Bool(b) => BoolValue(b)
    case Arr(items) => ArrayValue(seq(|items|, i requires 0 <= i < |items| => ToOtlpValue(items[i])))
    case Other(text) => StringValue(text.value)
  }

  function ReadAll(vs: seq<OtlpValue>): Option<seq<JsValue>> {
    if vs == [] then Some([])
    else match (ReadValue(vs[0]), ReadAll(vs[1..]))
         case (Some(x), Some(xs)) => Some([x] + xs)
         case _ => None
  }

  /** What the receiving side makes of an encoded value; it reads integers exactly. */
  function ReadValue(v: OtlpValue): Option<JsValue> {
    match v
    case StringValue(s) => Some(Str(s))
    case IntValue(t) => (match ParseInt(t) case Some(n) => Some(Int(n)) case None => None)
    case DoubleValue(x) => Some(Frac(x))
    case DoubleNull => None
    case BoolValue(b) => Some(Bool(b))
    case ArrayValue(vs) => (match ReadAll(vs) case Some(xs) => Some(Arr(xs)) case None => None)
  }

  /** Every integer inside is a number that JavaScript has. */
  predicate Possible(v: JsValue) {
    match v
    case Int(n) => Doubles.IsDouble(Magnitude(n))
    case Arr(items) => forall i :: 0 <= i < |items| ==> Possible(items[i])
    case _ => true
  }

  /**
   Only the recognised kinds, and every integer inside is below 10^21 in magnitude and would be
   another double with one digit less.
   */
  predicate Portable(v: JsValue) {
    match v
    case Int(n) => Magnitude(n) < Doubles.TEN21 && Doubles.NeedsItsDigits(Magnitude(n))
    case NotFinite => false
    case Other(_) => false
    case Arr(items) => forall i :: 0 <= i < |items| ==> Portable(items[i])
    case _ => true
  }

  lemma {:induction false} ExponentialHasE(n: nat)
    ensures 'e' in Exponential(n)
  {
    var digits := NatToString(n);
    var m := StripZeros(digits);
    var head := Pointed(m);
    assert Exponential(n)[|head|] == 'e';
  }

  lemma {:induction false} MagnitudeTextReads(v: nat)
    ensures ParseInt(MagnitudeText(v)) == (if v < Doubles.TEN21 then Some(v) else None)
    ensures ParseInt("-" + MagnitudeText(v)) == (if v < Doubles.TEN21 then Some(0 - v) else None)
  {
    var body := MagnitudeText(v);
    assert ("-" + body)[1..] == body;
    if v < Doubles.TEN21 {
      NatRoundTrip(v);
      assert IsDigit(body[0]);
    } else {
      ExponentialHasE(v);
      ExponentialStart(v);
      var k :| 0 <= k < |body| && body[k] == 'e';
      assert !IsDigit(body[k]);
    }
  }

  /** The text of a double reads as the digits printed for it, and as nothing from 10^21 on. */
  lemma {:induction false} NumberTextReads(n: int)
    requires Doubles.IsDouble(Magnitude(n))
    ensures Magnitude(n) >= Doubles.TEN21 ==> ParseInt(NumberText(n)) == None
    ensures Magnitude(n) < Doubles.TEN21 ==>
              ParseInt(NumberText(n)) == Some(if n < 0 then 0 - Doubles.Shortest(Magnitude(n)) else Doubles.Shortest(n))
  {
    hide MagnitudeText, Doubles.IsDouble, Doubles.Shortest, Doubles.TEN21, ParseInt;
    Doubles.PrintedBelow(Magnitude(n));
    var v := Doubles.Shortest(Magnitude(n));
    MagnitudeTextReads(v);
    assert "" + MagnitudeText(v) == MagnitudeText(v);
  }

  /** A reader that rounds to doubles gets every integer below 10^21 back. */
  lemma {:induction false} ReadsBackAsDouble(n: int)
    requires Doubles.IsDouble(Magnitude(n)) && Magnitude(n) < Doubles.TEN21
    ensures var r := ParseInt(NumberText(n));
            && r.Some? && Doubles.Nearest(Magnitude(r.value)) == Magnitude(n)
            && (n < 0 ==> r.value <= 0) && (n > 0 ==> r.value >= 0)
  {
    hide NumberText, Doubles.IsDouble, Doubles.Shortest, Doubles.Nearest, ParseInt;
    NumberTextReads(n);
    Doubles.ShortestReads(Magnitude(n));
  }

  lemma {:induction false} StripZerosPrefix(s: string)
    requires s != []
    ensures StripZeros(s) != [] && StripZeros(s) <= s
  {
    if |s| > 1 && s[|s| - 1] == '0' {
      StripZerosPrefix(s[..|s| - 1]);
    }
  }

  lemma {:induction false} ExponentialStart(n: nat)
    ensures Exponential(n) != [] && IsDigit(Exponential(n)[0])
  {
    NatRoundTrip(n);
    StripZerosPrefix(NatToString(n));
  }

  ghost predicate Sendable(items: seq<JsValue>) {
    forall i :: 0 <= i < |items| ==> Encodable(items[i]) && Possible(items[i])
  }

  lemma {:induction false} ReadAllOfEncoded(items: seq<JsValue>)
    requires Sendable(items)
    ensures ReadAll(seq(|items|, i requires 0 <= i < |items| => ToOtlpValue(items[i]))) == Some(items)
            <==> forall i :: 0 <= i < |items| ==> Portable(items[i])
    decreases items, 0
  {
    hide ToOtlpValue, ReadValue, Portable, Encodable, Possible;
    var enc := seq(|items|, i requires 0 <= i < |items| => ToOtlpValue(items[i]));
    if items == [] {
      assert enc == [];
    } else {
      var tail := items[1..];
      assert enc[1..] == seq(|tail|, i requires 0 <= i < |tail| => ToOtlpValue(tail[i]));
      RoundTrip(items[0]);
      ReadAllOfEncoded(tail);
      assert items == [items[0]] + tail;
      assert (forall i :: 0 <= i < |items| ==> Portable(items[i]))
        <==> Portable(items[0]) && forall i :: 0 <= i < |tail| ==> Portable(tail[i]) by {
        assert forall i :: 0 < i < |items| ==> items[i] == tail[i - 1];
        assert forall i :: 0 <= i < |tail| ==> tail[i] == items[i + 1];
      }
    }
  }

  /** Reading back the encoding of a value gives the value exactly when it is portable. */
  lemma {:induction false} RoundTrip(v: JsValue)
    requires Encodable(v) && Possible(v)
    ensures ReadValue(ToOtlpValue(v)) == Some(v) <==> Portable(v)
    decreases v, 1
  {
    hide NumberText, Doubles.IsDouble, Doubles.Shortest, Doubles.NeedsItsDigits, ParseInt;
    match v
    case Int(n) =>
      NumberTextReads(n);
      Doubles.PrintedExactly(Magnitude(n));
    case Arr(items) => ReadAllOfEncoded(items);
    case _ =>
  }

  /** Every integer up to 2^53 in magnitude survives. */
  lemma {:induction false} SafeIntegersSurvive(n: int)
    requires Magnitude(n) <= Doubles.TWO53
    ensures Possible(Int(n)) && ReadValue(ToOtlpValue(Int(n))) == Some(Int(n))
  {
    hide NumberText, Doubles.IsDouble, Doubles.Shortest, Doubles.NeedsItsDigits, ParseInt;
    Doubles.SafeIntegers(Magnitude(n));
    RoundTrip(Int(n));
  }

  /** 2^60 arrives as another number. */
  lemma {:induction false} TwoTo60IsChanged()
    ensures Possible(Int(Doubles.TWO60))
    ensures ReadValue(ToOtlpValue(Int(Doubles.TWO60))) == Some(Int(1152921504606847000))
  {
    hide NumberText, Doubles.IsDouble, Doubles.Shortest, ParseInt;
    Doubles.Printed60();
    NumberTextReads(Doubles.TWO60);
  }

  /** 10^21 does not arrive. */
  lemma {:induction false} TenTo21IsLost()
    ensures Possible(Int(Doubles.TEN21))
    ensures ReadValue(ToOtlpValue(Int(Doubles.TEN21))) == None
  {
    hide NumberText, Doubles.IsDouble, Doubles.Shortest, ParseInt;
    Doubles.Ten21IsDouble();
    NumberTextReads(Doubles.TEN21);
  }

  // ---------------------------------------------------------------------
  // Timestamps
  // ---------------------------------------------------------------------

  /** The clock: what `new Date(iso).getTime()` gives, None standing for NaN. */
  type Clock = string -> Option<int>

  function IsoToUnixNano(clock: Clock, iso: string): string {
    (match clock(iso) case Some(ms) => IntToString(ms) case None => "NaN") + "000000"
  }

  /** v followed by k zeros. */
  function Shift(v: nat, k: nat): nat {
    if k == 0 then v else 10 * Shift(v, k - 1)
  }

  lemma {:induction false} AppendZeros(s: string, k: nat, zeros: string)
    requires s != [] && |zeros| == k && forall i :: 0 <= i < k ==> zeros[i] == '0'
    requires AllDigits(s)
    ensures AllDigits(s + zeros) && DigitsValue(s + zeros) == Shift(DigitsValue(s), k)
  {
    var t := s + zeros;
    if k == 0 {
      assert t == s;
    } else {
      AppendZeros(s, k - 1, zeros[..k - 1]);
      assert t[..|t| - 1] == s + zeros[..k - 1];
    }
  }

  /**
   A timestamp string reads as the time in milliseconds times 1,000,000, for every
   integer time including zero and negative ones; an unreadable date gives no number.
   */
  lemma {:induction false} UnixNanoReads(clock: Clock, iso: string)
    ensures ParseInt(IsoToUnixNano(clock, iso)) ==
            match clock(iso) case Some(ms) => Some(ms * 1_000_000) case None => None
  {
    match clock(iso)
    case None => assert !IsDigit(IsoToUnixNano(clock, iso)[0]);
    case Some(ms) => NanoText(ms);
  }

  lemma {:induction false} NanoDigits(m: nat)
    ensures var s := NatToString(m) + "000000";
            s != [] && AllDigits(s) && DigitsValue(s) == m * 1_000_000
  {
    NatRoundTrip(m);
    AppendZeros(NatToString(m), 6, "000000");
    assert Shift(m, 1) == 10 * m;
    assert Shift(m, 2) == 100 * m;
    assert Shift(m, 3) == 1000 * m;
    assert Shift(m, 4) == 10_000 * m;
    assert Shift(m, 5) == 100_000 * m;
  }

  lemma {:induction false} NanoText(ms: int)
    ensures ParseInt(IntToString(ms) + "000000") == Some(ms * 1_000_000)
  {
    var text := IntToString(ms) + "000000";
    if ms < 0 {
      NanoDigits(-ms);
      assert text[1..] == NatToString(-ms) + "000000";
    } else {
      NanoDigits(ms);
      assert IsDigit(text[0]);
    }
  }

  // ---------------------------------------------------------------------
  // Spans and batches
  // ---------------------------------------------------------------------

  datatype OtlpEvent = OtlpEvent(timeUnixNano: string, name: string, attributes: seq<(string, OtlpValue)>)

  datatype OtlpSpan = OtlpSpan(
    traceId: string,
    spanId: string,
    parentSpanId: Option<string>,
    name: string,
    kind: int,
    startTimeUnixNano: string,
    endTimeUnixNano: Option<string>,
    statusCode: int,
    statusMessage: Option<string>,
    attributes: seq<(string, OtlpValue)>,
    events: seq<OtlpEvent>)

  function KindNumber(k: SpanKind): int {
    match k case Internal => 1 case Server => 2 case Client => 3 case Producer => 4 case Consumer => 5
  }

  function StatusNumber(s: SpanStatus): int {
    match s case StatusUnset => 0 case StatusOk => 1 case StatusError => 2
  }

  /** An absent string and an empty one are both falsy. */
  function Truthy(s: Option<string>): Option<string> {
    if s == Some("") then None else s
  }

  function EncodeAttributes(attrs: seq<(string, JsValue)>): seq<(string, OtlpValue)>
    requires EncodableAll(attrs)
  {
    seq(|attrs|, i requires 0 <= i < |attrs| => (attrs[i].0, ToOtlpValue(attrs[i].1)))
  }

  function EncodeEvent(clock: Clock, e: SpanEvent): OtlpEvent
    requires EncodableAll(e.attributes)
  {
    OtlpEvent(IsoToUnixNano(clock, e.time), e.name, EncodeAttributes(e.attributes))
  }

  function EncodeEvents(clock: Clock, es: seq<SpanEvent>): seq<OtlpEvent>
    requires forall i :: 0 <= i < |es| ==> EncodableAll(es[i].attributes)
  {
    seq(|es|, i requires 0 <= i < |es| => EncodeEvent(clock, es[i]))
  }

  function SpanToOtlp(clock: Clock, span: Span): OtlpSpan
    requires EncodableSpan(span)
  {
    OtlpSpan(
      span.traceId, span.spanId, Truthy(span.parentSpanId), span.name, KindNumber(span.kind),
      IsoToUnixNano(clock, span.startTime),
      match Truthy(span.endTime) { case Some(t) => Some(IsoToUnixNano(clock, t)) case None => None },
      StatusNumber(span.statusCode), span.statusMessage,
      EncodeAttributes(span.attributes),
      EncodeEvents(clock, span.events))
  }

  /** The spans of the single scope a batch is posted with. */
  function ToBatch(clock: Clock, spans: seq<Span>): seq<OtlpSpan>
    requires EncodableBatch(spans)
  {
    seq(|spans|, i requires 0 <= i < |spans| => SpanToOtlp(clock, spans[i]))
  }

  // ---------------------------------------------------------------------
  // Different numbers have different texts
  // ---------------------------------------------------------------------

  lemma {:induction false} SplitAt(a: string, x: string, b: string, y: string, c: char)
    requires c !in a && c !in b && a + [c] + x == b + [c] + y
    ensures a == b && x == y
  {
    var t := a + [c] + x;
    assert t[|a|] == c && t[|b|] == c;
    assert forall k :: 0 <= k < |a| ==> t[k] == a[k];
    assert forall k :: 0 <= k < |b| ==> t[k] == b[k];
    assert |a| == |b|;
    assert a == t[..|a|] == b && x == t[|a| + 1..] == y;
  }

  lemma {:induction false} NatTextInjective(v: nat, w: nat)
    requires NatToString(v) == NatToString(w)
    ensures v == w
  {
    NatRoundTrip(v);
    NatRoundTrip(w);
  }

  lemma {:induction false} StrippedZeros(s: string)
    ensures StripZeros(s) <= s && forall k :: |StripZeros(s)| <= k < |s| ==> s[k] == '0'
  {
    if |s| > 1 && s[|s| - 1] == '0' {
      StrippedZeros(s[..|s| - 1]);
    }
  }

  lemma {:induction false} PointInjective(m: string, n: string)
    requires m != "" && n != "" && Pointed(m) == Pointed(n)
    ensures m == n
  {
    assert m == m[..1] + m[1..] && n == n[..1] + n[1..];
    if |m| > 1 && |n| > 1 {
      assert Pointed(m)[2..] == m[1..] && Pointed(n)[2..] == n[1..];
      assert Pointed(m)[..1] == m[..1] && Pointed(n)[..1] == n[..1];
    }
  }

  lemma {:induction false} PointedHasNoE(m: string)
    requires AllDigits(m)
    ensures 'e' !in Pointed(m)
  {}

  lemma {:induction false} SameDigits(d: string, f: string)
    requires StripZeros(d) == StripZeros(f) && |d| == |f|
    ensures d == f
  {
    hide StripZeros;
    StrippedZeros(d);
    StrippedZeros(f);
    var m := StripZeros(d);
    forall k | 0 <= k < |d| ensures d[k] == f[k] {
      if k < |m| {
        assert d[k] == m[k] == f[k];
      }
    }
  }

  lemma {:induction false} MantissaAndExponent(d: string, f: string, x: string, y: string)
    requires d != "" && f != "" && AllDigits(d) && AllDigits(f)
    requires Pointed(StripZeros(d)) + "e+" + x == Pointed(StripZeros(f)) + "e+" + y
    ensures StripZeros(d) == StripZeros(f) && x == y
  {
    hide StripZeros, Pointed;
    var m, n := StripZeros(d), StripZeros(f);
    StripZerosPrefix(d);
    StripZerosPrefix(f);
    assert AllDigits(m) && AllDigits(n) by {
      assert forall k :: 0 <= k < |m| ==> m[k] == d[k];
      assert forall k :: 0 <= k < |n| ==> n[k] == f[k];
    }
    PointedHasNoE(m);
    PointedHasNoE(n);
    assert Pointed(m) + "e+" + x == Pointed(m) + ['e'] + ("+" + x);
    assert Pointed(n) + "e+" + y == Pointed(n) + ['e'] + ("+" + y);
    SplitAt(Pointed(m), "+" + x, Pointed(n), "+" + y, 'e');
    assert ("+" + x)[1..] == x && ("+" + y)[1..] == y;
    PointInjective(m, n);
  }

  lemma {:induction false} ExponentialInjective(v: nat, w: nat)
    requires Exponential(v) == Exponential(w)
    ensures v == w
  {
    hide StripZeros, Pointed, NatToString;
    var d, f := NatToString(v), NatToString(w);
    NatRoundTrip(v);
    NatRoundTrip(w);
    MantissaAndExponent(d, f, NatToString(|d| - 1), NatToString(|f| - 1));
    NatTextInjective(|d| - 1, |f| - 1);
    SameDigits(d, f);
  }

  lemma {:induction false} DigitsHaveNoE(v: nat)
    ensures 'e' !in NatToString(v)
  {
    NatRoundTrip(v);
  }

  lemma {:induction false} MagnitudeTextInjective(v: nat, w: nat)
    requires MagnitudeText(v) == MagnitudeText(w)
    ensures v == w
  {
    hide Exponential, Doubles.TEN21;
    DigitsHaveNoE(v);
    DigitsHaveNoE(w);
    ExponentialHasE(v);
    ExponentialHasE(w);
    if v < Doubles.TEN21 && w < Doubles.TEN21 {
      NatTextInjective(v, w);
    } else if v >= Doubles.TEN21 && w >= Doubles.TEN21 {
      ExponentialInjective(v, w);
    }
  }

  lemma {:induction false} MagnitudeStartsWithDigit(v: nat)
    ensures MagnitudeText(v) != "" && MagnitudeText(v)[0] != '-'
  {
    NatRoundTrip(v);
    ExponentialStart(v);
    assert !IsDigit('-');
    assert v < Doubles.TEN21 ==> IsDigit(MagnitudeText(v)[0]);
  }

  /** No two doubles that are integers are printed alike. */
  lemma {:induction false} NumberTextInjective(m: int, n: int)
    requires Doubles.IsDouble(Magnitude(m)) && Doubles.IsDouble(Magnitude(n)) && NumberText(m) == NumberText(n)
    ensures m == n
  {
    hide MagnitudeText, Doubles.IsDouble, Doubles.Shortest, Doubles.Nearest;
    var x, y := MagnitudeText(Doubles.Shortest(Magnitude(m))), MagnitudeText(Doubles.Shortest(Magnitude(n)));
    MagnitudeStartsWithDigit(Doubles.Shortest(Magnitude(m)));
    MagnitudeStartsWithDigit(Doubles.Shortest(Magnitude(n)));
    assert ("-" + x)[1..] == x && ("-" + y)[1..] == y && "" + x == x && "" + y == y;
    assert (m < 0) == (n < 0) && x == y;
    MagnitudeTextInjective(Doubles.Shortest(Magnitude(m)), Doubles.Shortest(Magnitude(n)));
    Doubles.ShortestReads(Magnitude(m));
    Doubles.ShortestReads(Magnitude(n));
  }

  // ---------------------------------------------------------------------
  // What an encoding tells
  // ---------------------------------------------------------------------

  /** A value of none of the recognised kinds is sent as its text, and looks like that text from then on. */
  function AsSent(v: JsValue): JsValue {
    match v
    case Other(Some(text)) => Str(text)
    case Arr(items) => Arr(seq(|items|, i requires 0 <= i < |items| => AsSent(items[i])))
    case _ => v
  }

  function AsSentAll(attrs: seq<(string, JsValue)>): seq<(string, JsValue)> {
    seq(|attrs|, i requires 0 <= i < |attrs| => (attrs[i].0, AsSent(attrs[i].1)))
  }

  predicate PossibleAll(attrs: seq<(string, JsValue)>) {
    forall i :: 0 <= i < |attrs| ==> Possible(attrs[i].1)
  }

  predicate PossibleSpan(span: Span) {
    && PossibleAll(span.attributes)
    && forall i :: 0 <= i < |span.events| ==> PossibleAll(span.events[i].attributes)
  }

  /** Two values have the same encoding exactly when they are sent as the same, also where a number is not read back. */
  lemma {:induction false} EncodingIsInjective(a: JsValue, b: JsValue)
    requires Encodable(a) && Encodable(b) && Possible(a) && Possible(b)
    ensures ToOtlpValue(a) == ToOtlpValue(b) <==> AsSent(a) == AsSent(b)
    decreases a, 1
  {
    hide NumberText, Doubles.IsDouble;
    match (a, b)
    case (Int(m), Int(n)) =>
      if NumberText(m) == NumberText(n) {
        NumberTextInjective(m, n);
      }
    case (Arr(items), Arr(others)) =>
      ArraysInjective(items, others);
    case _ =>
  }

  lemma {:induction false} ArraysInjective(items: seq<JsValue>, others: seq<JsValue>)
    requires Encodable(Arr(items)) && Encodable(Arr(others)) && Possible(Arr(items)) && Possible(Arr(others))
    ensures ToOtlpValue(Arr(items)) == ToOtlpValue(Arr(others)) <==> AsSent(Arr(items)) == AsSent(Arr(others))
    decreases Arr(items), 0
  {
    var x, y := ToOtlpValue(Arr(items)).values, ToOtlpValue(Arr(others)).values;
    var u, v := AsSent(Arr(items)).items, AsSent(Arr(others)).items;
    if |items| == |others| {
      forall i | 0 <= i < |items| ensures x[i] == y[i] <==> u[i] == v[i] {
        EncodingIsInjective(items[i], others[i]);
      }
      assert x == y <==> forall i :: 0 <= i < |items| ==> x[i] == y[i];
      assert u == v <==> forall i :: 0 <= i < |items| ==> u[i] == v[i];
    }
  }

  /** Two option-valued dates denote the same instant, or are both absent. */
  predicate SameInstant(clock: Clock, a: Option<string>, b: Option<string>) {
    match (Truthy(a), Truthy(b))
    case (None, None) => true
    case (Some(x), Some(y)) => clock(x) == clock(y)
    case _ => false
  }

  predicate SameEvent(clock: Clock, a: SpanEvent, b: SpanEvent) {
    clock(a.time) == clock(b.time) && a.name == b.name && AsSentAll(a.attributes) == AsSentAll(b.attributes)
  }

  /** Equal up to the spelling of dates, the difference between empty and absent, and values sent as their text. */
  predicate SameSpan(clock: Clock, a: Span, b: Span) {
    && a.traceId == b.traceId && a.spanId == b.spanId && Truthy(a.parentSpanId) == Truthy(b.parentSpanId)
    && a.name == b.name && a.kind == b.kind
    && a.statusCode == b.statusCode && a.statusMessage == b.statusMessage
    && clock(a.startTime) == clock(b.startTime) && SameInstant(clock, a.endTime, b.endTime)
    && AsSentAll(a.attributes) == AsSentAll(b.attributes)
    && |a.events| == |b.events|
    && forall i :: 0 <= i < |a.events| ==> SameEvent(clock, a.events[i], b.events[i])
  }

  lemma {:induction false} NanoInjective(clock: Clock, s: string, t: string)
    ensures IsoToUnixNano(clock, s) == IsoToUnixNano(clock, t) <==> clock(s) == clock(t)
  {
    UnixNanoReads(clock, s);
    UnixNanoReads(clock, t);
  }

  lemma {:induction false} AttributesInjective(a: seq<(string, JsValue)>, b: seq<(string, JsValue)>)
    requires EncodableAll(a) && EncodableAll(b) && PossibleAll(a) && PossibleAll(b)
    ensures EncodeAttributes(a) == EncodeAttributes(b) <==> AsSentAll(a) == AsSentAll(b)
  {
    var x, y, u, v := EncodeAttributes(a), EncodeAttributes(b), AsSentAll(a), AsSentAll(b);
    if |a| == |b| {
      forall i | 0 <= i < |a| ensures x[i] == y[i] <==> u[i] == v[i] {
        EncodingIsInjective(a[i].1, b[i].1);
      }
      assert x == y <==> forall i :: 0 <= i < |a| ==> x[i] == y[i];
      assert u == v <==> forall i :: 0 <= i < |a| ==> u[i] == v[i];
    }
  }

  lemma {:induction false} EventInjective(clock: Clock, a: SpanEvent, b: SpanEvent)
    requires EncodableAll(a.attributes) && EncodableAll(b.attributes)
    requires PossibleAll(a.attributes) && PossibleAll(b.attributes)
    ensures EncodeEvent(clock, a) == EncodeEvent(clock, b) <==> SameEvent(clock, a, b)
  {
    hide IsoToUnixNano, EncodeAttributes, AsSentAll;
    NanoInjective(clock, a.time, b.time);
    AttributesInjective(a.attributes, b.attributes);
  }

  lemma {:induction false} EventsInjective(clock: Clock, a: Span, b: Span)
    requires EncodableSpan(a) && EncodableSpan(b) && PossibleSpan(a) && PossibleSpan(b)
    ensures SpanToOtlp(clock, a).events == SpanToOtlp(clock, b).events
       <==> |a.events| == |b.events| && forall i :: 0 <= i < |a.events| ==> SameEvent(clock, a.events[i], b.events[i])
  {
    hide EncodeEvent, SameEvent, EncodableAll, PossibleAll;
    var x, y := SpanToOtlp(clock, a).events, SpanToOtlp(clock, b).events;
    if |a.events| == |b.events| {
      forall i | 0 <= i < |a.events| ensures x[i] == y[i] <==> SameEvent(clock, a.events[i], b.events[i]) {
        EventInjective(clock, a.events[i], b.events[i]);
      }
      assert x == y <==> forall i :: 0 <= i < |a.events| ==> x[i] == y[i];
    }
  }

  /** The posted form of a span loses nothing else: it is the same exactly when the spans are. */
  lemma {:induction false} SpanEncodingFaithful(clock: Clock, a: Span, b: Span)
    requires EncodableSpan(a) && EncodableSpan(b) && PossibleSpan(a) && PossibleSpan(b)
    ensures SpanToOtlp(clock, a) == SpanToOtlp(clock, b) <==> SameSpan(clock, a, b)
  {
    hide IsoToUnixNano, EncodeAttributes, AsSentAll, SameEvent, EncodeEvent;
    NanoInjective(clock, a.startTime, b.startTime);
    if Truthy(a.endTime).Some? && Truthy(b.endTime).Some? {
      NanoInjective(clock, Truthy(a.endTime).value, Truthy(b.endTime).value);
    }
    AttributesInjective(a.attributes, b.attributes);
    EventsInjective(clock, a, b);
  }

  /** The same for whole batches: equal bodies carry the same spans in the same order. */
  lemma {:induction false} BatchEncodingFaithful(clock: Clock, a: seq<Span>, b: seq<Span>)
    requires EncodableBatch(a) && EncodableBatch(b)
    requires forall i :: 0 <= i < |a| ==> PossibleSpan(a[i])
    requires forall i :: 0 <= i < |b| ==> PossibleSpan(b[i])
    ensures ToBatch(clock, a) == ToBatch(clock, b)
       <==> |a| == |b| && forall i :: 0 <= i < |a| ==> SameSpan(clock, a[i], b[i])
  {
    hide SpanToOtlp, SameSpan, EncodableSpan, PossibleSpan;
    var x, y := ToBatch(clock, a), ToBatch(clock, b);
    if |a| == |b| {
      forall i | 0 <= i < |a| ensures x[i] == y[i] <==> SameSpan(clock, a[i], b[i]) {
        SpanEncodingFaithful(clock, a[i], b[i]);
      }
      assert x == y <==> forall i :: 0 <= i < |a| ==> x[i] == y[i];
    }
  }
}
