// The events of an accepted OTLP request, field by field: which record each one
// stands for, what its identifiers and attributes are made of, and what makes an
// event unacceptable (internal/ingest/native_otlp.go, otlp.go and gateway.go).
module OtlpFields {
  import opened Telemetry
  import opened Sampling
  import opened Otlp

  // ---------- what is refused ----------

  predicate TooLong(e: Event) {
    || |e.eventId| > 256 || |e.traceId| > 128 || |e.spanId| > 128 || |e.parentSpanId| > 128 || |e.name| > 512
    || |e.attributes| > 64
    || exists k :: k in e.attributes && (|k| > 256 || |e.attributes[k]| > 4096)
  }

  predicate Nameless(e: Event) {
    || e.eventId == "" || e.name == "" || "" in e.attributes
    || (e.signal != "log" && (e.traceId == "" || e.spanId == ""))
  }

  lemma ValidExactly(e: Event)
    ensures Valid(e) <==> !TooLong(e) && !Nameless(e) && e.signal in {"", "trace", "log"}
  {
    if ValidAttributes(e.attributes) {
      assert "" !in e.attributes;
    }
  }

  // ---------- attributes ----------

  lemma {:induction false} DecimalDenotes(n: nat)
    ensures IsNumeral(Decimal(n)) && NumeralValue(Decimal(n)) == n
    ensures n > 0 ==> Decimal(n)[0] != '0'
    decreases n
  {
    DigitValue(n % 10);
    if n >= 10 {
      DecimalDenotes(n / 10);
      var text := Decimal(n);
      assert text[..|text| - 1] == Decimal(n / 10) && text[0] == Decimal(n / 10)[0];
    }
  }

  // The text of an attribute value: the number it denotes for an integer, and none
  // for a list, a map or nothing.
  lemma ScalarText(value: AnyValue)
    ensures value.Composite? || value.Unset? <==> Scalar(value) == None
    ensures value.StringValue? ==> Scalar(value) == Some(value.text)
    ensures value.BoolValue? ==> Scalar(value) == Some(if value.flag then "true" else "false")
    ensures value.DoubleValue? ==> Scalar(value) == Some(value.formatted)
    ensures value.IntValue? && value.n >= 0 ==>
              IsNumeral(Scalar(value).value) && NumeralValue(Scalar(value).value) == value.n
    ensures value.IntValue? && value.n < 0 ==>
              var text := Scalar(value).value;
              text[0] == '-' && IsNumeral(text[1..]) && NumeralValue(text[1..]) == -value.n
  {
    hide Decimal, IsNumeral, NumeralValue;
    if value.IntValue? {
      DecimalDenotes(if value.n < 0 then -value.n else value.n);
      assert ("-" + Decimal(if value.n < 0 then -value.n else value.n))[1..]
             == Decimal(if value.n < 0 then -value.n else value.n);
    }
  }

  // The last attribute of the list that has the key and a scalar value has this one.
  ghost predicate LastScalar(attributes: seq<KeyValue>, key: string, value: string) {
    exists i :: 0 <= i < |attributes| && Writes(attributes[i], key) && Scalar(attributes[i].value) == Some(value)
                && forall j :: i < j < |attributes| ==> !Writes(attributes[j], key)
  }

  ghost predicate Unwritten(attributes: seq<KeyValue>, key: string) {
    forall i :: 0 <= i < |attributes| ==> !Writes(attributes[i], key)
  }

  // The record's own attributes count over those of its resource.
  ghost predicate Written(own: seq<KeyValue>, resource: seq<KeyValue>, key: string, value: string) {
    LastScalar(own, key, value) || (Unwritten(own, key) && LastScalar(resource, key, value))
  }

  lemma SomeLast(attributes: seq<KeyValue>, key: string)
    ensures Unwritten(attributes, key)
            || exists i :: 0 <= i < |attributes| && Writes(attributes[i], key)
                           && forall j :: i < j < |attributes| ==> !Writes(attributes[j], key)
  {
    hide Writes;
    var i := |attributes|;
    while i > 0 && !Writes(attributes[i - 1], key)
      invariant 0 <= i <= |attributes| && forall j :: i <= j < |attributes| ==> !Writes(attributes[j], key)
    {
      i := i - 1;
    }
    assert i == 0 || Writes(attributes[i - 1], key);
  }

  lemma MergedFrom(base: map<string, string>, attributes: seq<KeyValue>, key: string, value: string)
    ensures key in Merge(base, attributes) && Merge(base, attributes)[key] == value <==>
            LastScalar(attributes, key, value) || (Unwritten(attributes, key) && key in base && base[key] == value)
  {
    hide Scalar, Merge;
    SomeLast(attributes, key);
    if Unwritten(attributes, key) {
      UnwrittenKeepsBase(base, attributes, key);
    } else {
      var i :| 0 <= i < |attributes| && Writes(attributes[i], key)
               && forall j :: i < j < |attributes| ==> !Writes(attributes[j], key);
      LastScalarWins(base, attributes, key, i);
    }
  }

  // Outside the given keys, the attributes are those of the record and its resource.
  ghost predicate MadeOf(attributes: map<string, string>, own: seq<KeyValue>, resource: seq<KeyValue>,
                         added: set<string>) {
    forall k, v :: k !in added ==> (k in attributes && attributes[k] == v <==> Written(own, resource, k, v))
  }

  lemma MergedIsMadeOf(own: seq<KeyValue>, resource: seq<KeyValue>)
    ensures MadeOf(Merge(Merge(map[], resource), own), own, resource, {})
  {
    hide Merge, LastScalar, Unwritten;
    forall k, v
      ensures k in Merge(Merge(map[], resource), own) && Merge(Merge(map[], resource), own)[k] == v
              <==> Written(own, resource, k, v)
    {
      MergedFrom(Merge(map[], resource), own, k, v);
      MergedFrom(map[], resource, k, v);
    }
  }

  predicate Has(attributes: map<string, string>, key: string, value: string) {
    key in attributes && attributes[key] == value
  }

  // ---------- the four kinds of records ----------

  lemma EventIs<R>(convert: Conversion<R>, sections: seq<Section<R>>, events: seq<Event>, i: nat)
    requires Normalizes(convert, sections, events) && i < |events|
    ensures i < |Flat(sections)| && 1 <= |events| <= 200
    ensures events[i] == convert(Merge(map[], Flat(sections)[i].resource), Flat(sections)[i].record, i + 1)
  {
    hide Merge, Flat, Valid;
    assert events[i] == EventAt(convert, Flat(sections), i);
  }

  lemma ProtoSpanFields(source: string, sections: seq<Section<ProtoSpan>>, events: seq<Event>, i: nat)
    requires Normalizes(ProtoSpanEvent(source), sections, events) && i < |events|
    ensures i < |Flat(sections)|
    ensures var placed, e := Flat(sections)[i], events[i];
            var span := placed.record;
            && e.eventId == Hex(span.traceId) + ":" + Hex(span.spanId) && e.signal == "trace"
            && e.traceId == Hex(span.traceId) && e.spanId == Hex(span.spanId)
            && e.parentSpanId == Hex(span.parentSpanId) && e.name == span.name
            && Has(e.attributes, "telemetry.source", source) && Has(e.attributes, "span.kind", span.kind)
            && (span.status.Some? ==> Has(e.attributes, "span.status", span.status.value))
            && MadeOf(e.attributes, span.attributes, placed.resource,
                      {"telemetry.source", "span.kind"} + if span.status.Some? then {"span.status"} else {})
  {
    EventIs(ProtoSpanEvent(source), sections, events, i);
    var placed := Flat(sections)[i];
    MergedIsMadeOf(placed.record.attributes, placed.resource);
    hide Merge, Flat, Hex, Normalizes, Written;
  }

  lemma JsonSpanFields(sections: seq<Section<JsonSpan>>, events: seq<Event>, i: nat)
    requires Normalizes(JsonSpanEvent(), sections, events) && i < |events|
    ensures i < |Flat(sections)|
    ensures var placed, e := Flat(sections)[i], events[i];
            var span := placed.record;
            && e.eventId == span.traceId + ":" + span.spanId && e.signal == "trace"
            && e.traceId == span.traceId && e.spanId == span.spanId
            && e.parentSpanId == span.parentSpanId && e.name == span.name
            && Has(e.attributes, "telemetry.source", "otlp_http_json")
            && MadeOf(e.attributes, span.attributes, placed.resource, {"telemetry.source"})
  {
    EventIs(JsonSpanEvent(), sections, events, i);
    var placed := Flat(sections)[i];
    MergedIsMadeOf(placed.record.attributes, placed.resource);
    OverlayIsMerge(Merge(map[], placed.resource), placed.record.attributes);
    hide Merge, Flat, Normalizes, Written;
  }

  // The attributes a log gains besides its own.
  ghost predicate LogFields(attributes: map<string, string>, source: string, severity: string, body: AnyValue,
                            own: seq<KeyValue>, resource: seq<KeyValue>) {
    && Has(attributes, "telemetry.source", source)
    && (severity != "" ==> Has(attributes, "log.severity", severity))
    && (Scalar(body).Some? ==> Has(attributes, "log.body", Scalar(body).value))
    && MadeOf(attributes, own, resource,
              {"telemetry.source"} + (if severity != "" then {"log.severity"} else {})
              + if Scalar(body).Some? then {"log.body"} else {})
  }

  lemma LogAttributesAre(merged: map<string, string>, source: string, severity: string, body: AnyValue,
                         own: seq<KeyValue>, resource: seq<KeyValue>)
    requires MadeOf(merged, own, resource, {})
    ensures LogFields(LogAttributes(merged, source, severity, body), source, severity, body, own, resource)
  {
    hide Written, Scalar;
    assert "log.severity" != "telemetry.source" && "log.body" != "telemetry.source" && "log.body" != "log.severity";
  }

  lemma IdentityIs(trace: string, span: string, time: string, ordinal: nat)
    ensures LogIdentity(trace, span, time, ordinal) == trace + ":" + span + ":" + time + ":" + Decimal(ordinal)
  {
  }

  lemma ProtoLogFields(digest: string -> string, source: string, sections: seq<Section<ProtoLog>>, events: seq<Event>,
                       i: nat)
    requires Normalizes(ProtoLogEvent(source, digest), sections, events) && i < |events|
    ensures i < |Flat(sections)|
    ensures var placed, e := Flat(sections)[i], events[i];
            var log := placed.record;
            && e.eventId == "log-" + digest(Hex(log.traceId) + ":" + Hex(log.spanId) + ":" + Decimal(log.timeUnixNano)
                                            + ":" + Decimal(i + 1))
            && e.traceId == Hex(log.traceId) && e.spanId == Hex(log.spanId)
            && e.signal == "log" && e.name == "log" && e.parentSpanId == ""
            && LogFields(e.attributes, source, log.severity, log.body, log.attributes, placed.resource)
  {
    hide Merge, Flat, Hex, Normalizes, LogAttributes, LogFields, MadeOf, Decimal, Scalar, LogIdentity;
    EventIs(ProtoLogEvent(source, digest), sections, events, i);
    var placed := Flat(sections)[i];
    var log := placed.record;
    IdentityIs(Hex(log.traceId), Hex(log.spanId), Decimal(log.timeUnixNano), i + 1);
    var merged := Merge(Merge(map[], placed.resource), log.attributes);
    MergedIsMadeOf(log.attributes, placed.resource);
    LogAttributesAre(merged, source, log.severity, log.body, log.attributes, placed.resource);
  }

  lemma JsonLogFields(digest: string -> string, sections: seq<Section<JsonLog>>, events: seq<Event>, i: nat)
    requires Normalizes(JsonLogEvent(digest), sections, events) && i < |events|
    ensures i < |Flat(sections)|
    ensures var placed, e := Flat(sections)[i], events[i];
            var log := placed.record;
            && e.eventId == "log-" + digest(log.traceId + ":" + log.spanId + ":" + log.timeUnixNano
                                            + ":" + Decimal(i + 1))
            && e.traceId == log.traceId && e.spanId == log.spanId
            && e.signal == "log" && e.name == "log" && e.parentSpanId == ""
            && LogFields(e.attributes, "otlp_http_json", log.severity, log.body, log.attributes, placed.resource)
  {
    hide Merge, Flat, Normalizes, LogAttributes, LogFields, MadeOf, Decimal, Scalar, LogIdentity;
    EventIs(JsonLogEvent(digest), sections, events, i);
    var placed := Flat(sections)[i];
    IdentityIs(placed.record.traceId, placed.record.spanId, placed.record.timeUnixNano, i + 1);
    var merged := Merge(Merge(map[], placed.resource), placed.record.attributes);
    MergedIsMadeOf(placed.record.attributes, placed.resource);
    OverlayIsMerge(Merge(map[], placed.resource), placed.record.attributes);
    LogAttributesAre(merged, "otlp_http_json", placed.record.severity, placed.record.body, placed.record.attributes,
                     placed.resource);
  }

  // ---------- nested order ----------

  function CountScopes<R>(scopes: seq<seq<R>>): nat {
    if scopes == [] then 0 else |scopes[0]| + CountScopes(scopes[1..])
  }

  function CountSections<R>(sections: seq<Section<R>>): nat {
    if sections == [] then 0 else CountScopes(sections[0].scopes) + CountSections(sections[1..])
  }

  lemma {:induction false} ScopeAt<R>(resource: seq<KeyValue>, records: seq<R>, c: nat)
    ensures |PlacedScope(resource, records)| == |records|
    ensures c < |records| ==> PlacedScope(resource, records)[c] == Placed(resource, records[c])
  {
    if records != [] {
      ScopeAt(resource, records[1..], if c > 0 then c - 1 else 0);
    }
  }

  lemma {:induction false} ScopesAt<R>(resource: seq<KeyValue>, scopes: seq<seq<R>>, b: nat, c: nat)
    ensures |PlacedScopes(resource, scopes)| == CountScopes(scopes)
    ensures b < |scopes| && c < |scopes[b]| ==>
              && CountScopes(scopes[..b]) + c < |PlacedScopes(resource, scopes)|
              && PlacedScopes(resource, scopes)[CountScopes(scopes[..b]) + c] == Placed(resource, scopes[b][c])
  {
    if scopes != [] {
      ScopeAt(resource, scopes[0], c);
      hide PlacedScope;
      ScopesAt(resource, scopes[1..], if b > 0 then b - 1 else 0, c);
      assert PlacedScopes(resource, scopes) == PlacedScope(resource, scopes[0]) + PlacedScopes(resource, scopes[1..]);
      if 0 < b < |scopes| {
        assert scopes[..b][0] == scopes[0] && scopes[..b][1..] == scopes[1..][..b - 1];
        assert CountScopes(scopes[..b]) == |scopes[0]| + CountScopes(scopes[1..][..b - 1]);
      }
    }
  }

  // The record at a place in the request is the event of its rank: the number of
  // records in earlier resources, in earlier scopes of its own and before it there.
  lemma {:induction false} FlatAt<R>(sections: seq<Section<R>>, a: nat, b: nat, c: nat)
    ensures |Flat(sections)| == CountSections(sections)
    ensures a < |sections| && b < |sections[a].scopes| && c < |sections[a].scopes[b]| ==>
              var rank := CountSections(sections[..a]) + CountScopes(sections[a].scopes[..b]) + c;
              && rank < |Flat(sections)|
              && Flat(sections)[rank] == Placed(sections[a].resource, sections[a].scopes[b][c])
  {
    if sections != [] {
      ScopesAt(sections[0].resource, sections[0].scopes, b, c);
      FlatAt(sections[1..], if a > 0 then a - 1 else 0, b, c);
      if 0 < a < |sections| {
        assert sections[..a][0] == sections[0] && sections[..a][1..] == sections[1..][..a - 1];
      }
    }
  }

  // A request is normalized exactly if it has 1 to 200 records and each becomes an
  // event that is neither too long nor nameless.
  lemma NormalizableExactly<R>(convert: Conversion<R>, sections: seq<Section<R>>)
    ensures Normalizable(convert, sections) <==>
            && 1 <= CountSections(sections) <= 200 && CountSections(sections) == |Flat(sections)|
            && forall i :: 0 <= i < |Flat(sections)| ==>
                 var e := EventAt(convert, Flat(sections), i);
                 !TooLong(e) && !Nameless(e) && e.signal in {"", "trace", "log"}
  {
    FlatAt(sections, 0, 0, 0);
    hide Flat, EventAt, Valid, TooLong, Nameless, CountSections;
    forall i | 0 <= i < |Flat(sections)|
      ensures var e := EventAt(convert, Flat(sections), i);
              Valid(e) <==> !TooLong(e) && !Nameless(e) && e.signal in {"", "trace", "log"}
    {
      ValidExactly(EventAt(convert, Flat(sections), i));
    }
  }

  // ---------- hexadecimal ----------

  // Two digits a byte, the higher one first, in lower case.
  lemma HexDigits(bytes: seq<byte>, i: nat)
    requires i < |bytes|
    ensures var n, text := bytes[i] as int, Hex(bytes);
            text[2 * i] as int == (if n < 160 then 48 + n / 16 else 87 + n / 16)
            && text[2 * i + 1] as int == if n % 16 < 10 then 48 + n % 16 else 87 + n % 16
  {
    hide Hex;
    NibbleIsDigit(bytes[i] as int / 16);
    NibbleIsDigit(bytes[i] as int % 16);
  }

  lemma NibbleIsDigit(n: nat)
    requires n < 16
    ensures Nibble(n) as int == if n < 10 then 48 + n else 87 + n
  {
  }
}
