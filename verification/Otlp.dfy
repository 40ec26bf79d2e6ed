// internal/ingest/native_otlp.go, internal/ingest/otlp.go and the validation of
// internal/ingest/gateway.go: a decoded OTLP request becomes events. Strings are
// sequences of bytes. Formatting a floating-point number and the digest of a log
// identity are computed elsewhere and arrive as text.
module Otlp {
  import opened Telemetry
  import opened Tenancy
  import opened Sampling

  const MAX_EVENTS := 200
  const MAX_ATTRIBUTES := 64
  const MAX_STRING_BYTES := 4096

  predicate ValidAttributes(attributes: map<string, string>) {
    forall k :: k in attributes ==> k != "" && |k| <= 256 && |attributes[k]| <= MAX_STRING_BYTES
  }

  predicate Valid(e: Event) {
    && e.eventId != "" && e.name != "" && |e.attributes| <= MAX_ATTRIBUTES
    && |e.eventId| <= 256 && |e.traceId| <= 128 && |e.spanId| <= 128 && |e.parentSpanId| <= 128 && |e.name| <= 512
    && (if e.signal == "" || e.signal == "trace" then e.traceId != "" && e.spanId != "" else e.signal == "log")
    && ValidAttributes(e.attributes)
  }

  // ---------- attributes ----------

  datatype AnyValue =
    | StringValue(text: string) | BoolValue(flag: bool) | IntValue(n: int) | DoubleValue(formatted: string)
    | Composite | Unset
  // A nil attribute is one with an empty key. Of a JSON value with several
  // alternatives set, the first one counts, and a JSON integer is text that is
  // not parsed, so it is a StringValue (otlp.go:171-184).
  datatype KeyValue = KeyValue(key: string, value: AnyValue)

  function Digit(n: nat): char
    requires n < 10
  {
    "0123456789"[n]
  }

  function Decimal(n: nat): (text: string)
    ensures text != "" && forall i :: 0 <= i < |text| ==> '0' <= text[i] <= '9'
  {
    if n < 10 then [Digit(n)] else Decimal(n / 10) + [Digit(n % 10)]
  }

  function Scalar(value: AnyValue): Option<string> {
    match value
    case StringValue(text) => Some(text)
    case BoolValue(flag) => Some(if flag then "true" else "false")
    case IntValue(n) => Some(if n < 0 then "-" + Decimal(-n) else Decimal(n))
    case DoubleValue(formatted) => Some(formatted)
    case Composite => None
    case Unset => None
  }

  lemma {:induction false} DigitsAppend(text: string, d: nat, soFar: nat)
    requires d < 10 && forall i :: 0 <= i < |text| ==> '0' <= text[i] <= '9'
    ensures Digits(text + [Digit(d)], soFar) == 10 * Digits(text, soFar) + d
    decreases |text|
  {
    if text == "" {
      DigitValue(d);
      assert (text + [Digit(d)])[1..] == "";
    } else {
      assert (text + [Digit(d)])[1..] == text[1..] + [Digit(d)];
      DigitsAppend(text[1..], d, 10 * soFar + (text[0] as int - '0' as int));
    }
  }

  lemma DigitValue(d: nat)
    requires d < 10
    ensures '0' <= Digit(d) <= '9' && Digit(d) as int - '0' as int == d
  {
  }

  lemma {:induction false} DigitsReadDecimal(n: nat)
    ensures Digits(Decimal(n), 0) == n
    decreases n
  {
    DigitsAppend(if n < 10 then "" else Decimal(n / 10), n % 10, 0);
    if n >= 10 {
      DigitsReadDecimal(n / 10);
    } else {
      assert Decimal(n) == "" + [Digit(n % 10)];
    }
  }

  // An integer attribute is written by one package and read back by another: the
  // sampler sees the status code the client sent.
  lemma IntegerStatusIsReadBack(e: Envelope, status: int)
    requires Attribute(e.event, "http.status_code") == Scalar(IntValue(status)).value
    ensures IsError(e) <==> status >= 500 || Attribute(e.event, "error") == Scalar(BoolValue(true)).value
  {
    AtoiReadsScalar(status);
    hide Atoi, Decimal;
  }

  lemma AtoiReadsScalar(n: int)
    ensures Atoi(Scalar(IntValue(n)).value) == n
  {
    hide Digits, Decimal;
    if n < 0 {
      DigitsReadDecimal(-n);
      var text := Decimal(-n);
      assert ("-" + text)[0] == '-' && ("-" + text)[1..] == text;
    } else {
      DigitsReadDecimal(n);
      var text := Decimal(n);
      assert text[0] != '-' && text[0] != '+';
    }
  }

  predicate Writes(a: KeyValue, key: string) {
    a.key == key && a.key != "" && Scalar(a.value).Some?
  }

  function Merge(base: map<string, string>, attributes: seq<KeyValue>): map<string, string> {
    if attributes == [] then base
    else
      var last := attributes[|attributes| - 1];
      var before := Merge(base, attributes[..|attributes| - 1]);
      if last.key != "" && Scalar(last.value).Some? then before[last.key := Scalar(last.value).value] else before
  }

  // A key without a scalar value keeps the base value.
  lemma {:induction false} UnwrittenKeepsBase(base: map<string, string>, attributes: seq<KeyValue>, key: string)
    requires forall i :: 0 <= i < |attributes| ==> !Writes(attributes[i], key)
    ensures key in Merge(base, attributes) <==> key in base
    ensures key in base ==> Merge(base, attributes)[key] == base[key]
  {
    hide Scalar;
    if attributes != [] {
      UnwrittenKeepsBase(base, attributes[..|attributes| - 1], key);
      assert !Writes(attributes[|attributes| - 1], key);
    }
  }

  // The last scalar value of a key counts, over earlier ones and over the base.
  lemma {:induction false} LastScalarWins(base: map<string, string>, attributes: seq<KeyValue>, key: string, i: nat)
    requires i < |attributes| && Writes(attributes[i], key)
    requires forall j :: i < j < |attributes| ==> !Writes(attributes[j], key)
    ensures key in Merge(base, attributes) && Merge(base, attributes)[key] == Scalar(attributes[i].value).value
  {
    hide Scalar;
    var n := |attributes| - 1;
    if i < n {
      LastScalarWins(base, attributes[..n], key, i);
      assert !Writes(attributes[n], key);
    }
  }

  method MergeAttributes(base: map<string, string>, attributes: seq<KeyValue>) returns (result: map<string, string>)
    ensures result == Merge(base, attributes)
  {
    result := base;
    for i := 0 to |attributes|
      invariant result == Merge(base, attributes[..i])
    {
      assert attributes[..i + 1][..i] == attributes[..i];
      if attributes[i].key == "" {
        continue;
      }
      var value := Scalar(attributes[i].value);
      if value.Some? {
        result := result[attributes[i].key := value.value];
      }
    }
    assert attributes[..|attributes|] == attributes;
  }

  // The JSON path builds the record's attributes first and lays them over the
  // resource's; the result is the same.
  lemma {:induction false} OverlayIsMerge(base: map<string, string>, attributes: seq<KeyValue>)
    ensures base + Merge(map[], attributes) == Merge(base, attributes)
  {
    hide Scalar;
    if attributes != [] {
      OverlayIsMerge(base, attributes[..|attributes| - 1]);
    }
  }

  // ---------- hexadecimal ----------

  newtype byte = n: int | 0 <= n < 256

  function Nibble(n: nat): char
    requires n < 16
  {
    "0123456789abcdef"[n]
  }

  function Hex(bytes: seq<byte>): (text: string)
    ensures |text| == 2 * |bytes|
    ensures forall i :: 0 <= i < |bytes| ==>
              text[2 * i] == Nibble(bytes[i] as int / 16) && text[2 * i + 1] == Nibble(bytes[i] as int % 16)
  {
    if bytes == [] then ""
    else
      var n := |bytes| - 1;
      Hex(bytes[..n]) + [Nibble(bytes[n] as int / 16), Nibble(bytes[n] as int % 16)]
  }

  method FmtHex(value: seq<byte>) returns (text: string)
    ensures text == Hex(value)
  {
    hide Hex, Nibble;
    var result := new char[2 * |value|];
    for i := 0 to |value|
      invariant forall j :: 0 <= j < i ==>
                  result[2 * j] == Nibble(value[j] as int / 16) && result[2 * j + 1] == Nibble(value[j] as int % 16)
    {
      result[2 * i] := Nibble(value[i] as int / 16);
      result[2 * i + 1] := Nibble(value[i] as int % 16);
    }
    text := result[..];
    HexIsDetermined(value, text);
  }

  lemma HexIsDetermined(value: seq<byte>, text: string)
    requires |text| == 2 * |value|
    requires forall i :: 0 <= i < |value| ==>
               text[2 * i] == Nibble(value[i] as int / 16) && text[2 * i + 1] == Nibble(value[i] as int % 16)
    ensures text == Hex(value)
  {
    hide Hex, Nibble;
    forall i | 0 <= i < |text| ensures text[i] == Hex(value)[i] {
      var k := i / 2;
      assert text[2 * k] == Hex(value)[2 * k] && text[2 * k + 1] == Hex(value)[2 * k + 1];
    }
  }

  lemma NibbleIsInjective(a: nat, b: nat)
    requires a < 16 && b < 16 && Nibble(a) == Nibble(b)
    ensures a == b
  {
  }

  lemma HexIsInjective(a: seq<byte>, b: seq<byte>)
    requires Hex(a) == Hex(b)
    ensures a == b
  {
    forall i | 0 <= i < |a| ensures a[i] == b[i] {
      assert Hex(a)[2 * i] == Hex(b)[2 * i] && Hex(a)[2 * i + 1] == Hex(b)[2 * i + 1];
      NibbleIsInjective(a[i] as int / 16, b[i] as int / 16);
      NibbleIsInjective(a[i] as int % 16, b[i] as int % 16);
    }
  }

  lemma HexHasNoColon(bytes: seq<byte>)
    ensures ':' !in Hex(bytes)
  {
    forall i | 0 <= i < |Hex(bytes)| ensures Hex(bytes)[i] != ':' {
      assert i == 2 * (i / 2) || i == 2 * (i / 2) + 1;
    }
  }

  // ---------- identities ----------

  // Joining with a colon is how both span identifiers and event keys are made.
  function SpanEventId(traceId: string, spanId: string): string {
    KeyOf(traceId, spanId)
  }

  lemma KeyOfIsInjective(a: string, x: string, b: string, y: string)
    requires KeyOf(a, x) == KeyOf(b, y) && Separate(a, b)
    ensures a == b && x == y
  {
    if a != b {
      CollisionContinues(a, x, b, y);
    }
    assert KeyOf(a, x)[|a| + 1..] == x && KeyOf(b, y)[|b| + 1..] == y;
  }

  // Two protobuf spans have one event identifier only if they have the same bytes.
  lemma ProtobufSpanIdsAreInjective(trace: seq<byte>, span: seq<byte>, otherTrace: seq<byte>, otherSpan: seq<byte>)
    requires SpanEventId(Hex(trace), Hex(span)) == SpanEventId(Hex(otherTrace), Hex(otherSpan))
    ensures trace == otherTrace && span == otherSpan
  {
    hide Hex;
    HexHasNoColon(trace);
    HexHasNoColon(otherTrace);
    ColonFreeTenantsAreSeparate(Hex(trace), Hex(otherTrace));
    KeyOfIsInjective(Hex(trace), Hex(span), Hex(otherTrace), Hex(otherSpan));
    HexIsInjective(trace, otherTrace);
    HexIsInjective(span, otherSpan);
  }

  // The JSON identifiers are arbitrary text: two traces have spans with one event
  // identifier exactly when one trace identifier continues the other with a colon.
  lemma JsonSpanIdsCollideExactly(trace: string, other: string)
    requires trace != other
    ensures (exists x, y :: SpanEventId(trace, x) == SpanEventId(other, y)) <==> !Separate(trace, other)
  {
    KeysCollideExactly(trace, other);
    if x, y :| KeyOf(trace, x) == KeyOf(other, y) {
      assert SpanEventId(trace, x) == SpanEventId(other, y);
    }
    if x, y :| SpanEventId(trace, x) == SpanEventId(other, y) {
      assert KeyOf(trace, x) == KeyOf(other, y);
    }
  }

  function LogStem(traceId: string, spanId: string, time: string): string {
    traceId + ":" + spanId + ":" + time
  }

  function LogIdentity(traceId: string, spanId: string, time: string, ordinal: nat): string {
    LogStem(traceId, spanId, time) + ":" + Decimal(ordinal)
  }

  lemma {:induction false} DecimalIsInjective(a: nat, b: nat)
    requires Decimal(a) == Decimal(b)
    ensures a == b
    decreases a
  {
    var x, y := Decimal(a), Decimal(b);
    assert x[|x| - 1] == y[|y| - 1];
    DigitIsInjective(a % 10, b % 10);
    if a >= 10 && b >= 10 {
      assert x[..|x| - 1] == Decimal(a / 10) && y[..|y| - 1] == Decimal(b / 10);
      DecimalIsInjective(a / 10, b / 10);
    }
  }

  lemma DigitIsInjective(a: nat, b: nat)
    requires a < 10 && b < 10 && Digit(a) == Digit(b)
    ensures a == b
  {
  }

  // What follows the last colon is the same in equal texts.
  lemma SameTail(a: string, x: string, b: string, y: string)
    requires a + ":" + x == b + ":" + y && ':' !in x && ':' !in y
    ensures x == y
  {
    LastColon(a, x);
    LastColon(b, y);
    assert (a + ":" + x)[|a| + 1..] == x && (b + ":" + y)[|b| + 1..] == y;
  }

  lemma LastColon(a: string, x: string)
    requires ':' !in x
    ensures var t := a + ":" + x; t[|a|] == ':' && forall i :: |a| < i < |t| ==> t[i] != ':'
  {
    var t := a + ":" + x;
    assert forall i :: |a| < i < |t| ==> t[i] == x[i - |a| - 1];
  }

  // Two identities are equal exactly when the ordinals are and the joined rest is,
  // so two records of one request always differ.
  lemma LogIdentitiesAgree(trace: string, span: string, time: string, ordinal: nat,
                           otherTrace: string, otherSpan: string, otherTime: string, otherOrdinal: nat)
    ensures LogIdentity(trace, span, time, ordinal) == LogIdentity(otherTrace, otherSpan, otherTime, otherOrdinal)
            <==> ordinal == otherOrdinal && LogStem(trace, span, time) == LogStem(otherTrace, otherSpan, otherTime)
  {
    hide Decimal;
    var a, b := LogStem(trace, span, time), LogStem(otherTrace, otherSpan, otherTime);
    if LogIdentity(trace, span, time, ordinal) == LogIdentity(otherTrace, otherSpan, otherTime, otherOrdinal) {
      SameTail(a, Decimal(ordinal), b, Decimal(otherOrdinal));
      DecimalIsInjective(ordinal, otherOrdinal);
      var rest := ":" + Decimal(ordinal);
      assert a + ":" + Decimal(ordinal) == a + rest && b + ":" + Decimal(ordinal) == b + rest;
      assert (a + rest)[..|a|] == a && (b + rest)[..|b|] == b;
    }
  }

  // Where trace and span hold no colon, the joined text determines the fields.
  lemma ColonFreeStems(trace: string, span: string, time: string, otherTrace: string, otherSpan: string,
                       otherTime: string)
    requires ':' !in trace && ':' !in span && ':' !in otherTrace && ':' !in otherSpan
    ensures LogStem(trace, span, time) == LogStem(otherTrace, otherSpan, otherTime)
            <==> trace == otherTrace && span == otherSpan && time == otherTime
  {
    if LogStem(trace, span, time) == LogStem(otherTrace, otherSpan, otherTime) {
      StemIsNested(trace, span, time);
      StemIsNested(otherTrace, otherSpan, otherTime);
      ColonFreeTenantsAreSeparate(trace, otherTrace);
      ColonFreeTenantsAreSeparate(span, otherSpan);
      KeyOfIsInjective(trace, KeyOf(span, time), otherTrace, KeyOf(otherSpan, otherTime));
      KeyOfIsInjective(span, time, otherSpan, otherTime);
    }
  }

  lemma StemIsNested(trace: string, span: string, time: string)
    ensures LogStem(trace, span, time) == KeyOf(trace, KeyOf(span, time))
  {
    assert trace + ":" + span + ":" + time == trace + ":" + (span + ":" + time);
  }

  // ---------- requests ----------

  // A resource with its scopes, each a list of spans or log records.
  datatype Section<R> = Section(resource: seq<KeyValue>, scopes: seq<seq<R>>)
  datatype Placed<R> = Placed(resource: seq<KeyValue>, record: R)

  datatype ProtoSpan = ProtoSpan(traceId: seq<byte>, spanId: seq<byte>, parentSpanId: seq<byte>, name: string,
                                 kind: string, status: Option<string>, attributes: seq<KeyValue>)
  datatype ProtoLog = ProtoLog(traceId: seq<byte>, spanId: seq<byte>, timeUnixNano: nat, severity: string,
                               body: AnyValue, attributes: seq<KeyValue>)
  datatype JsonSpan = JsonSpan(traceId: string, spanId: string, parentSpanId: string, name: string,
                               attributes: seq<KeyValue>)
  datatype JsonLog = JsonLog(timeUnixNano: string, traceId: string, spanId: string, severity: string, body: AnyValue,
                             attributes: seq<KeyValue>)

  function PlacedScope<R>(resource: seq<KeyValue>, records: seq<R>): seq<Placed<R>> {
    if records == [] then [] else [Placed(resource, records[0])] + PlacedScope(resource, records[1..])
  }

  function PlacedScopes<R>(resource: seq<KeyValue>, scopes: seq<seq<R>>): seq<Placed<R>> {
    if scopes == [] then [] else PlacedScope(resource, scopes[0]) + PlacedScopes(resource, scopes[1..])
  }

  // The records in nested order, each with the attributes of its resource.
  function Flat<R>(sections: seq<Section<R>>): seq<Placed<R>> {
    if sections == [] then [] else PlacedScopes(sections[0].resource, sections[0].scopes) + Flat(sections[1..])
  }

  // How one record becomes an event, given the merged resource and its ordinal.
  type Conversion<!R> = (map<string, string>, R, nat) -> Event

  function EventAt<R>(convert: Conversion<R>, flat: seq<Placed<R>>, i: nat): Event
    requires i < |flat|
  {
    convert(Merge(map[], flat[i].resource), flat[i].record, i + 1)
  }

  // One event per record, in nested order; between 1 and 200 of them, all valid.
  ghost predicate Normalizes<R>(convert: Conversion<R>, sections: seq<Section<R>>, events: seq<Event>) {
    var flat := Flat(sections);
    && |events| == |flat| && 1 <= |flat| <= MAX_EVENTS
    && forall i :: 0 <= i < |flat| ==> events[i] == EventAt(convert, flat, i) && Valid(events[i])
  }

  ghost predicate Normalizable<R>(convert: Conversion<R>, sections: seq<Section<R>>) {
    var flat := Flat(sections);
    1 <= |flat| <= MAX_EVENTS && forall i :: 0 <= i < |flat| ==> Valid(EventAt(convert, flat, i))
  }

  // The events so far are those of a prefix of the records; `rest` remains.
  ghost predicate Sofar<R>(convert: Conversion<R>, flat: seq<Placed<R>>, events: seq<Event>, rest: seq<Placed<R>>) {
    && |events| <= |flat| && |events| <= MAX_EVENTS && flat[|events|..] == rest
    && forall i :: 0 <= i < |events| ==> events[i] == EventAt(convert, flat, i) && Valid(events[i])
  }

  lemma OneMore<R>(convert: Conversion<R>, sections: seq<Section<R>>, events: seq<Event>, rest: seq<Placed<R>>,
                   x: Placed<R>, tail: seq<Placed<R>>)
    requires Sofar(convert, Flat(sections), events, rest) && rest == [x] + tail
    ensures var event := convert(Merge(map[], x.resource), x.record, |events| + 1);
            if |events| < MAX_EVENTS && Valid(event) then Sofar(convert, Flat(sections), events + [event], tail)
            else !Normalizable(convert, sections)
  {
    hide Valid, Merge, Flat;
    var flat := Flat(sections);
    assert flat[|events|] == rest[0] == x;
    assert flat[|events| + 1..] == rest[1..] == tail;
    assert EventAt(convert, flat, |events|) == convert(Merge(map[], x.resource), x.record, |events| + 1);
  }

  lemma NextRecord<R>(resource: seq<KeyValue>, records: seq<R>, c: nat, rest: seq<Placed<R>>)
    requires c < |records|
    ensures PlacedScope(resource, records[c..]) + rest
              == [Placed(resource, records[c])] + (PlacedScope(resource, records[c + 1..]) + rest)
  {
    assert records[c..][1..] == records[c + 1..];
  }

  lemma NextScope<R>(resource: seq<KeyValue>, scopes: seq<seq<R>>, b: nat, later: seq<Placed<R>>)
    requires b < |scopes|
    ensures PlacedScopes(resource, scopes[b..]) + later
              == PlacedScope(resource, scopes[b]) + (PlacedScopes(resource, scopes[b + 1..]) + later)
  {
    assert scopes[b..][1..] == scopes[b + 1..];
  }

  lemma NextSection<R>(sections: seq<Section<R>>, a: nat)
    requires a < |sections|
    ensures Flat(sections[a..]) == PlacedScopes(sections[a].resource, sections[a].scopes) + Flat(sections[a + 1..])
  {
    assert sections[a..][1..] == sections[a + 1..];
  }

  lemma AllConverted<R>(convert: Conversion<R>, sections: seq<Section<R>>, events: seq<Event>)
    requires Sofar(convert, Flat(sections), events, [])
    ensures if events == [] then !Normalizable(convert, sections)
            else Normalizable(convert, sections) && Normalizes(convert, sections, events)
  {
    hide Valid, Merge, Flat;
    var flat := Flat(sections);
    assert |flat| == |events|;
  }

  method Collect<R>(convert: Conversion<R>, sections: seq<Section<R>>) returns (accepted: Option<seq<Event>>)
    ensures accepted.Some? <==> Normalizable(convert, sections)
    ensures accepted.Some? ==> Normalizes(convert, sections, accepted.value)
  {
    var events: seq<Event> := [];
    ghost var flat := Flat(sections);
    assert sections[0..] == sections && flat[0..] == flat;
    assert Sofar(convert, flat, events, Flat(sections[0..]));
    hide Valid, Merge, Flat, PlacedScope, PlacedScopes, Sofar, Normalizable, Normalizes;
    for a := 0 to |sections|
      invariant |events| <= MAX_EVENTS && Sofar(convert, flat, events, Flat(sections[a..]))
    {
      NextSection(sections, a);
      var resource := MergeAttributes(map[], sections[a].resource);
      var scopes := sections[a].scopes;
      ghost var later := Flat(sections[a + 1..]);
      assert scopes[0..] == scopes;
      for b := 0 to |scopes|
        invariant |events| <= MAX_EVENTS
        invariant Sofar(convert, flat, events, PlacedScopes(sections[a].resource, scopes[b..]) + later)
      {
        NextScope(sections[a].resource, scopes, b, later);
        var records := scopes[b];
        ghost var rest := PlacedScopes(sections[a].resource, scopes[b + 1..]) + later;
        assert records[0..] == records;
        for c := 0 to |records|
          invariant |events| <= MAX_EVENTS
          invariant Sofar(convert, flat, events, PlacedScope(sections[a].resource, records[c..]) + rest)
        {
          NextRecord(sections[a].resource, records, c, rest);
          OneMore(convert, sections, events, PlacedScope(sections[a].resource, records[c..]) + rest,
                  Placed(sections[a].resource, records[c]), PlacedScope(sections[a].resource, records[c + 1..]) + rest);
          if |events| >= MAX_EVENTS {
            return None;
          }
          var event := convert(resource, records[c], |events| + 1);
          if !Valid(event) {
            return None;
          }
          events := events + [event];
        }
        NoRecords(sections[a].resource, records, rest);
      }
      NoScopes(sections[a].resource, scopes, later);
    }
    NoSections(sections);
    AllConverted(convert, sections, events);
    if |events| == 0 {
      return None;
    }
    return Some(events);
  }

  lemma NoRecords<R>(resource: seq<KeyValue>, records: seq<R>, rest: seq<Placed<R>>)
    ensures PlacedScope(resource, records[|records|..]) + rest == rest
  {
    assert records[|records|..] == [];
  }

  lemma NoScopes<R>(resource: seq<KeyValue>, scopes: seq<seq<R>>, later: seq<Placed<R>>)
    ensures PlacedScopes(resource, scopes[|scopes|..]) + later == later
  {
    assert scopes[|scopes|..] == [];
  }

  lemma NoSections<R>(sections: seq<Section<R>>)
    ensures Flat(sections[|sections|..]) == []
  {
    assert sections[|sections|..] == [];
  }

  // ---------- the four adapters ----------

  function ProtoSpanEvent(source: string): Conversion<ProtoSpan> {
    (resource: map<string, string>, span: ProtoSpan, ordinal: nat) =>
      var own := Merge(resource, span.attributes)["telemetry.source" := source]["span.kind" := span.kind];
      Event(SpanEventId(Hex(span.traceId), Hex(span.spanId)), "trace", Hex(span.traceId), Hex(span.spanId),
            Hex(span.parentSpanId), span.name,
            if span.status.Some? then own["span.status" := span.status.value] else own)
  }

  function LogAttributes(merged: map<string, string>, source: string, severity: string,
                         body: AnyValue): map<string, string> {
    var sourced := merged["telemetry.source" := source];
    var severe := if severity != "" then sourced["log.severity" := severity] else sourced;
    if Scalar(body).Some? then severe["log.body" := Scalar(body).value] else severe
  }

  // `digest` is the text of the first eight bytes of the SHA-256 of the identity.
  function ProtoLogEvent(source: string, digest: string -> string): Conversion<ProtoLog> {
    (resource: map<string, string>, record: ProtoLog, ordinal: nat) =>
      var time := Decimal(record.timeUnixNano);
      Event("log-" + digest(LogIdentity(Hex(record.traceId), Hex(record.spanId), time, ordinal)), "log",
            Hex(record.traceId), Hex(record.spanId), "", "log",
            LogAttributes(Merge(resource, record.attributes), source, record.severity, record.body))
  }

  function JsonSpanEvent(): Conversion<JsonSpan> {
    (resource: map<string, string>, span: JsonSpan, ordinal: nat) =>
      Event(SpanEventId(span.traceId, span.spanId), "trace", span.traceId, span.spanId, span.parentSpanId, span.name,
            (resource + Merge(map[], span.attributes))["telemetry.source" := "otlp_http_json"])
  }

  function JsonLogEvent(digest: string -> string): Conversion<JsonLog> {
    (resource: map<string, string>, record: JsonLog, ordinal: nat) =>
      Event("log-" + digest(LogIdentity(record.traceId, record.spanId, record.timeUnixNano, ordinal)), "log",
            record.traceId, record.spanId, "", "log",
            LogAttributes(resource + Merge(map[], record.attributes), "otlp_http_json", record.severity, record.body))
  }

  // The event of a protobuf span names its trace and span, so two spans of one
  // request, or of two requests, share an event identifier only with equal bytes.
  lemma NormalizedSpansAreIdentified(source: string, sections: seq<Section<ProtoSpan>>, events: seq<Event>,
                                     other: string,
                                     otherSections: seq<Section<ProtoSpan>>, otherEvents: seq<Event>, i: nat, j: nat)
    requires Normalizes(ProtoSpanEvent(source), sections, events)
    requires Normalizes(ProtoSpanEvent(other), otherSections, otherEvents)
    requires i < |events| && j < |otherEvents| && events[i].eventId == otherEvents[j].eventId
    ensures var a, b := Flat(sections)[i].record, Flat(otherSections)[j].record;
            a.traceId == b.traceId && a.spanId == b.spanId && events[i].traceId == otherEvents[j].traceId
  {
    hide Hex, Valid, Merge, Scalar;
    var a, b := Flat(sections)[i].record, Flat(otherSections)[j].record;
    assert events[i] == EventAt(ProtoSpanEvent(source), Flat(sections), i);
    assert otherEvents[j] == EventAt(ProtoSpanEvent(other), Flat(otherSections), j);
    ProtobufSpanIdsAreInjective(a.traceId, a.spanId, b.traceId, b.spanId);
  }

  // The text of a JSON identifier can hold colons, so there one trace identifier
  // may also continue the other.
  lemma JsonSpansAreIdentified(sections: seq<Section<JsonSpan>>, events: seq<Event>,
                               otherSections: seq<Section<JsonSpan>>, otherEvents: seq<Event>, i: nat, j: nat)
    requires Normalizes(JsonSpanEvent(), sections, events) && Normalizes(JsonSpanEvent(), otherSections, otherEvents)
    requires i < |events| && j < |otherEvents| && events[i].eventId == otherEvents[j].eventId
    ensures var a, b := Flat(sections)[i].record, Flat(otherSections)[j].record;
            (a.traceId == b.traceId && a.spanId == b.spanId) || !Separate(a.traceId, b.traceId)
  {
    hide Valid, Merge, Scalar, KeyOf, Separate;
    var a, b := Flat(sections)[i].record, Flat(otherSections)[j].record;
    assert events[i] == EventAt(JsonSpanEvent(), Flat(sections), i);
    assert otherEvents[j] == EventAt(JsonSpanEvent(), Flat(otherSections), j);
    if Separate(a.traceId, b.traceId) {
      KeyOfIsInjective(a.traceId, a.spanId, b.traceId, b.spanId);
    }
  }

  function ProtoLogIdentity(record: ProtoLog, ordinal: nat): string {
    LogIdentity(Hex(record.traceId), Hex(record.spanId), Decimal(record.timeUnixNano), ordinal)
  }

  function JsonLogIdentity(record: JsonLog, ordinal: nat): string {
    LogIdentity(record.traceId, record.spanId, record.timeUnixNano, ordinal)
  }

  // Two logs of one request or of two share an event identifier exactly when the
  // digests of their identities are equal, and the identities are equal exactly
  // when the records agree on trace, span, time and position: never within one
  // request, and whatever the bodies and attributes of two.
  lemma NormalizedLogsAreIdentified(digest: string -> string, source: string, sections: seq<Section<ProtoLog>>,
                                    events: seq<Event>, other: string, otherSections: seq<Section<ProtoLog>>,
                                    otherEvents: seq<Event>, i: nat, j: nat)
    requires Normalizes(ProtoLogEvent(source, digest), sections, events) && i < |events|
    requires Normalizes(ProtoLogEvent(other, digest), otherSections, otherEvents) && j < |otherEvents|
    ensures var a, b := Flat(sections)[i].record, Flat(otherSections)[j].record;
            var x, y := ProtoLogIdentity(a, i + 1), ProtoLogIdentity(b, j + 1);
            && (events[i].eventId == otherEvents[j].eventId <==> digest(x) == digest(y))
            && (x == y <==> i == j && a.traceId == b.traceId && a.spanId == b.spanId
                            && a.timeUnixNano == b.timeUnixNano)
  {
    hide Hex, Valid, Merge, Scalar, Decimal, LogIdentity, LogAttributes, LogStem;
    var a, b := Flat(sections)[i].record, Flat(otherSections)[j].record;
    assert events[i] == EventAt(ProtoLogEvent(source, digest), Flat(sections), i);
    assert otherEvents[j] == EventAt(ProtoLogEvent(other, digest), Flat(otherSections), j);
    SamePrefix("log-", digest(ProtoLogIdentity(a, i + 1)), digest(ProtoLogIdentity(b, j + 1)));
    ProtoIdentitiesAgree(a, i + 1, b, j + 1);
  }

  lemma ProtoIdentitiesAgree(a: ProtoLog, ordinal: nat, b: ProtoLog, otherOrdinal: nat)
    ensures ProtoLogIdentity(a, ordinal) == ProtoLogIdentity(b, otherOrdinal)
            <==> ordinal == otherOrdinal
                 && a.traceId == b.traceId && a.spanId == b.spanId && a.timeUnixNano == b.timeUnixNano
  {
    hide Hex, Decimal, LogIdentity, LogStem;
    LogIdentitiesAgree(Hex(a.traceId), Hex(a.spanId), Decimal(a.timeUnixNano), ordinal,
                       Hex(b.traceId), Hex(b.spanId), Decimal(b.timeUnixNano), otherOrdinal);
    HexHasNoColon(a.traceId);
    HexHasNoColon(a.spanId);
    HexHasNoColon(b.traceId);
    HexHasNoColon(b.spanId);
    ColonFreeStems(Hex(a.traceId), Hex(a.spanId), Decimal(a.timeUnixNano),
                   Hex(b.traceId), Hex(b.spanId), Decimal(b.timeUnixNano));
    if Hex(a.traceId) == Hex(b.traceId) {
      HexIsInjective(a.traceId, b.traceId);
    }
    if Hex(a.spanId) == Hex(b.spanId) {
      HexIsInjective(a.spanId, b.spanId);
    }
    if Decimal(a.timeUnixNano) == Decimal(b.timeUnixNano) {
      DecimalIsInjective(a.timeUnixNano, b.timeUnixNano);
    }
  }

  // The same for JSON, where the fields are arbitrary text: the joined texts must
  // agree, and so the fields if no identifier holds a colon.
  lemma JsonLogsAreIdentified(digest: string -> string, sections: seq<Section<JsonLog>>, events: seq<Event>,
                              otherSections: seq<Section<JsonLog>>, otherEvents: seq<Event>, i: nat, j: nat)
    requires Normalizes(JsonLogEvent(digest), sections, events) && i < |events|
    requires Normalizes(JsonLogEvent(digest), otherSections, otherEvents) && j < |otherEvents|
    ensures var a, b := Flat(sections)[i].record, Flat(otherSections)[j].record;
            var x, y := JsonLogIdentity(a, i + 1), JsonLogIdentity(b, j + 1);
            && (events[i].eventId == otherEvents[j].eventId <==> digest(x) == digest(y))
            && (x == y <==> i == j && LogStem(a.traceId, a.spanId, a.timeUnixNano)
                                      == LogStem(b.traceId, b.spanId, b.timeUnixNano))
            && (ColonFree(a) && ColonFree(b) ==>
                  (x == y <==> i == j && a.traceId == b.traceId && a.spanId == b.spanId
                               && a.timeUnixNano == b.timeUnixNano))
  {
    hide Valid, Merge, Scalar, Decimal, LogIdentity, LogAttributes, LogStem;
    var a, b := Flat(sections)[i].record, Flat(otherSections)[j].record;
    assert events[i] == EventAt(JsonLogEvent(digest), Flat(sections), i);
    assert otherEvents[j] == EventAt(JsonLogEvent(digest), Flat(otherSections), j);
    SamePrefix("log-", digest(JsonLogIdentity(a, i + 1)), digest(JsonLogIdentity(b, j + 1)));
    LogIdentitiesAgree(a.traceId, a.spanId, a.timeUnixNano, i + 1, b.traceId, b.spanId, b.timeUnixNano, j + 1);
    if ColonFree(a) && ColonFree(b) {
      ColonFreeStems(a.traceId, a.spanId, a.timeUnixNano, b.traceId, b.spanId, b.timeUnixNano);
    }
  }

  predicate ColonFree(record: JsonLog) {
    ':' !in record.traceId && ':' !in record.spanId
  }

  lemma SamePrefix(prefix: string, x: string, y: string)
    ensures prefix + x == prefix + y <==> x == y
  {
    assert (prefix + x)[|prefix|..] == x && (prefix + y)[|prefix|..] == y;
  }

  // ---------- the two encodings agree ----------

  const ADAPTER_KEYS := ["telemetry.source", "span.kind", "span.status"]

  // A span sent as JSON, with its bytes in hexadecimal and its integers in decimal,
  // becomes the event it becomes as protobuf, except for the attributes that the
  // adapters add.
  lemma JsonSpanMatchesProtobuf(source: string, resource: map<string, string>, span: ProtoSpan, ordinal: nat)
    ensures var text := JsonSpan(Hex(span.traceId), Hex(span.spanId), Hex(span.parentSpanId), span.name,
                                 span.attributes);
            var json := JsonSpanEvent()(resource, text, ordinal);
            var proto := ProtoSpanEvent(source)(resource, span, ordinal);
            && json.(attributes := map[]) == proto.(attributes := map[])
            && forall k :: k !in ADAPTER_KEYS ==>
                 && (k in json.attributes <==> k in proto.attributes)
                 && (k in json.attributes ==> json.attributes[k] == proto.attributes[k])
  {
    hide Hex, Merge, KeyOf;
    OverlayIsMerge(resource, span.attributes);
  }

  lemma SourceIsReplaced(merged: map<string, string>, source: string, other: string, severity: string, body: AnyValue)
    ensures LogAttributes(merged, other, severity, body)["telemetry.source" := source]
              == LogAttributes(merged, source, severity, body)
  {
    hide Scalar;
    assert "log.severity" != "telemetry.source" && "log.body" != "telemetry.source";
  }

  // A log record becomes the same event, but for the name of its source.
  lemma JsonLogMatchesProtobuf(source: string, digest: string -> string, resource: map<string, string>,
                               record: ProtoLog, ordinal: nat)
    ensures var text := JsonLog(Decimal(record.timeUnixNano), Hex(record.traceId), Hex(record.spanId), record.severity,
                                record.body, record.attributes);
            var json := JsonLogEvent(digest)(resource, text, ordinal);
            var proto := ProtoLogEvent(source, digest)(resource, record, ordinal);
            json.(attributes := json.attributes["telemetry.source" := source]) == proto
  {
    hide Hex, Merge, Decimal, LogIdentity, LogAttributes;
    OverlayIsMerge(resource, record.attributes);
    SourceIsReplaced(Merge(resource, record.attributes), source, "otlp_http_json", record.severity, record.body);
  }
}
