// The batch classifier of internal/sampling/sampler.go. Two library computations
// stay abstract and travel with the configuration: the FNV-1a hash of a trace id
// and the conversion of the "duration_ms" text to nanoseconds.
module Sampling {
  import opened Telemetry

  type Word32 = n: nat | n < 0x1_0000_0000

  datatype Settings = Settings(
    maxTraces: int,
    maxSpansPerTrace: int,
    healthySampleModulo: int,
    slowThreshold: int,
    fnv: string -> Word32,
    nanoseconds: string -> Option<int>)

  // A modulo of 2^32 or more is truncated by uint32 and may divide by zero.
  type Config = c: Settings | c.healthySampleModulo < 0x1_0000_0000
    witness Settings(0, 0, 0, 0, (id: string) => 0, (text: string) => None)

  datatype Reason =
    | RetainedError | RetainedSlow | RetainedHealthySample
    | DroppedHealthySample | EvictedPressure | EvictedSpanLimit

  predicate Retains(reason: Reason) {
    reason.RetainedError? || reason.RetainedSlow? || reason.RetainedHealthySample?
  }

  datatype Decision = Decision(traceId: string, reason: Reason, retained: bool, evicted: bool, spans: seq<Envelope>)

  const SECOND := 1_000_000_000

  function WithDefaults(config: Config): (c: Config)
    ensures c.healthySampleModulo >= 1 && c.slowThreshold > 0
  {
    config.(healthySampleModulo := if config.healthySampleModulo < 1 then 100 else config.healthySampleModulo,
            slowThreshold := if config.slowThreshold <= 0 then SECOND else config.slowThreshold)
  }

  // strconv.Atoi with its error ignored: 0 for malformed text. The clamp of an
  // out-of-range number cannot be seen by the comparison with 500.
  function Atoi(text: string): int {
    if |text| > 0 && text[0] == '-' then -(Digits(text[1..], 0) as int)
    else if |text| > 0 && text[0] == '+' then Digits(text[1..], 0)
    else Digits(text, 0)
  }

  function Digits(text: string, soFar: nat): nat
    decreases |text|
  {
    if text == "" then soFar
    else if '0' <= text[0] <= '9' then Digits(text[1..], 10 * soFar + (text[0] as int - '0' as int))
    else 0
  }

  predicate IsError(span: Envelope) {
    Atoi(Attribute(span.event, "http.status_code")) >= 500 || Attribute(span.event, "error") == "true"
  }

  predicate IsSlow(span: Envelope, config: Config) {
    var parsed := config.nanoseconds(Attribute(span.event, "duration_ms"));
    parsed.Some? && parsed.value >= config.slowThreshold
  }

  predicate Sample(traceId: string, config: Config)
    requires config.healthySampleModulo >= 1
  {
    config.fnv(traceId) % config.healthySampleModulo == 0
  }

  function Decide(traceId: string, spans: seq<Envelope>, config: Config): Decision {
    var c := WithDefaults(config);
    if exists i :: 0 <= i < |spans| && IsError(spans[i]) then
      Decision(traceId, RetainedError, true, false, spans)
    else if exists i :: 0 <= i < |spans| && IsSlow(spans[i], c) then
      Decision(traceId, RetainedSlow, true, false, spans)
    else if Sample(traceId, c) then
      Decision(traceId, RetainedHealthySample, true, false, spans)
    else
      Decision(traceId, DroppedHealthySample, false, false, [])
  }

  function Elements(spans: seq<Envelope>): set<Envelope> {
    set span | span in spans
  }

  // The verdict on a trace as a function of the set of its spans alone.
  ghost function Verdict(traceId: string, spans: set<Envelope>, config: Config): Reason {
    var c := WithDefaults(config);
    if exists span :: span in spans && IsError(span) then RetainedError
    else if exists span :: span in spans && IsSlow(span, c) then RetainedSlow
    else if Sample(traceId, c) then RetainedHealthySample
    else DroppedHealthySample
  }

  // Neither the order of the spans nor a repetition can change a decision: a
  // retried worker that reloads the same rows in another order agrees.
  lemma DecideIsVerdictOfTheSet(traceId: string, spans: seq<Envelope>, config: Config)
    ensures var d := Decide(traceId, spans, config);
            && d.reason == Verdict(traceId, Elements(spans), config)
            && d.retained == Retains(d.reason)
            && !d.evicted
            && d.traceId == traceId
            && d.spans == (if d.retained then spans else [])
  {
    var all := Elements(spans);
    forall i | 0 <= i < |spans| ensures spans[i] in all {}
  }

  // More spans never turn a retained trace into a dropped one.
  lemma MoreSpansKeepRetention(traceId: string, fewer: set<Envelope>, more: set<Envelope>, config: Config)
    requires fewer <= more
    requires Retains(Verdict(traceId, fewer, config))
    ensures Retains(Verdict(traceId, more, config))
  {
    var c := WithDefaults(config);
    if exists span :: span in fewer && IsError(span) {
      var span :| span in fewer && IsError(span);
      assert span in more;
    } else if exists span :: span in fewer && IsSlow(span, c) {
      var span :| span in fewer && IsSlow(span, c);
      assert span in more;
    }
  }

  lemma DivisorDivides(hash: nat, modulo: nat, divisor: nat)
    requires modulo >= 1 && divisor >= 1
    requires modulo % divisor == 0 && hash % modulo == 0
    ensures hash % divisor == 0
  {
    var p, q := modulo / divisor, hash / modulo;
    assert hash == q * (p * divisor) == (q * p) * divisor;
    MultipleHasNoRemainder(q * p, divisor);
  }

  lemma MultipleHasNoRemainder(n: nat, divisor: nat)
    requires divisor >= 1
    ensures (n * divisor) % divisor == 0
  {
    var m := n * divisor;
    var k := n - m / divisor;
    assert m == divisor * (m / divisor) + m % divisor;
    assert k * divisor == m % divisor;
    NonzeroMultipleIsLarge(k, divisor);
  }

  lemma NonzeroMultipleIsLarge(k: int, divisor: nat)
    ensures k >= 1 ==> k * divisor >= divisor
    ensures k <= -1 ==> k * divisor <= -(divisor as int)
  {
  }

  // Replacing the healthy modulo by one of its divisors keeps every kept trace.
  lemma DivisorKeepsRetention(traceId: string, spans: set<Envelope>, config: Config, divisor: int)
    requires config.healthySampleModulo >= 1 && 1 <= divisor <= config.healthySampleModulo
    requires config.healthySampleModulo % divisor == 0
    requires Retains(Verdict(traceId, spans, config))
    ensures Retains(Verdict(traceId, spans, config.(healthySampleModulo := divisor)))
  {
    var c := WithDefaults(config);
    var finer: Config := config.(healthySampleModulo := divisor);
    var d := WithDefaults(finer);
    forall span ensures IsSlow(span, c) == IsSlow(span, d) {}
    if Sample(traceId, c) {
      DivisorDivides(config.fnv(traceId), config.healthySampleModulo, divisor);
    }
  }

  // ---------- the decision, read off the attributes ----------

  predicate IsNumeral(text: string) {
    text != "" && forall i :: 0 <= i < |text| ==> '0' <= text[i] <= '9'
  }

  // The number a numeral denotes, by place value from the right.
  function NumeralValue(text: string): nat
    requires IsNumeral(text)
  {
    var n := |text| - 1;
    (if n == 0 then 0 else 10 * NumeralValue(text[..n])) + (text[n] as int - '0' as int)
  }

  lemma {:induction false} DigitsFrom(head: string, tail: string)
    requires IsNumeral(head) && (tail == "" || IsNumeral(tail))
    ensures Digits(tail, NumeralValue(head)) == NumeralValue(head + tail)
    decreases |tail|
  {
    if tail == "" {
      assert head + tail == head;
    } else {
      var longer := head + [tail[0]];
      assert longer[..|longer| - 1] == head && longer + tail[1..] == head + tail;
      DigitsFrom(longer, tail[1..]);
    }
  }

  lemma NumeralByHead(text: string)
    requires text != ""
    ensures IsNumeral(text) <==> '0' <= text[0] <= '9' && (text[1..] == "" || IsNumeral(text[1..]))
  {
    assert forall i :: 0 < i < |text| ==> text[i] == text[1..][i - 1];
  }

  lemma {:induction false} DigitsOfOther(text: string, soFar: nat)
    requires text != "" && !IsNumeral(text)
    ensures Digits(text, soFar) == 0
    decreases |text|
  {
    NumeralByHead(text);
    hide IsNumeral;
    if '0' <= text[0] <= '9' {
      DigitsOfOther(text[1..], 10 * soFar + (text[0] as int - '0' as int));
    }
  }

  lemma DigitsOf(text: string)
    ensures Digits(text, 0) == if IsNumeral(text) then NumeralValue(text) else 0
  {
    if IsNumeral(text) {
      var head := text[..1];
      assert text == head + text[1..] && Digits(text, 0) == Digits(text[1..], NumeralValue(head));
      DigitsFrom(head, text[1..]);
    } else if text != "" {
      DigitsOfOther(text, 0);
    }
  }

  // A numeral of 500 or more, with or without a plus sign. A missing or malformed
  // status code is none.
  predicate Denotes500(text: string) {
    || (IsNumeral(text) && NumeralValue(text) >= 500)
    || (|text| > 1 && text[0] == '+' && IsNumeral(text[1..]) && NumeralValue(text[1..]) >= 500)
  }

  predicate FailedBy(attributes: map<string, string>) {
    || ("error" in attributes && attributes["error"] == "true")
    || ("http.status_code" in attributes && Denotes500(attributes["http.status_code"]))
  }

  lemma ErrorByAttributes(span: Envelope)
    ensures IsError(span) <==> FailedBy(span.event.attributes)
  {
    var text := Attribute(span.event, "http.status_code");
    DigitsOf(text);
    if text != "" {
      DigitsOf(text[1..]);
      assert IsNumeral(text) ==> '0' <= text[0];
    }
    hide Digits, NumeralValue;
  }

  // The duration text converts to at least so many nanoseconds.
  predicate LastsFor(attributes: map<string, string>, config: Config, threshold: int) {
    var duration := config.nanoseconds(if "duration_ms" in attributes then attributes["duration_ms"] else "");
    duration.Some? && duration.value >= threshold
  }

  // Which reason a trace gets: its first applicable one of error, slow, sampled and
  // dropped, with a threshold of one second and one trace in 100 when unset.
  lemma DecideByAttributes(traceId: string, spans: seq<Envelope>, config: Config)
    ensures var threshold := if config.slowThreshold > 0 then config.slowThreshold else 1_000_000_000;
            var modulo := if config.healthySampleModulo >= 1 then config.healthySampleModulo else 100;
            var failed := exists i :: 0 <= i < |spans| && FailedBy(spans[i].event.attributes);
            var slow := exists i :: 0 <= i < |spans| && LastsFor(spans[i].event.attributes, config, threshold);
            var d := Decide(traceId, spans, config);
            && (d.reason.RetainedError? <==> failed)
            && (d.reason.RetainedSlow? <==> !failed && slow)
            && (d.reason.RetainedHealthySample? <==> !failed && !slow && config.fnv(traceId) % modulo == 0)
            && (d.reason.DroppedHealthySample? <==> !failed && !slow && config.fnv(traceId) % modulo != 0)
            && (d.retained <==> !d.reason.DroppedHealthySample?)
            && d.spans == if d.retained then spans else []
  {
    forall i | 0 <= i < |spans| ensures IsError(spans[i]) <==> FailedBy(spans[i].event.attributes) {
      ErrorByAttributes(spans[i]);
    }
    hide IsError, FailedBy;
    var c := WithDefaults(config);
    forall i | 0 <= i < |spans|
      ensures IsSlow(spans[i], c) <==> LastsFor(spans[i].event.attributes, config, c.slowThreshold)
    {
    }
  }

  // The same of the set of the spans.
  ghost predicate ReasonFits(traceId: string, spans: set<Envelope>, config: Config, reason: Reason) {
    var threshold := if config.slowThreshold > 0 then config.slowThreshold else 1_000_000_000;
    var modulo := if config.healthySampleModulo >= 1 then config.healthySampleModulo else 100;
    if exists span :: span in spans && FailedBy(span.event.attributes) then reason.RetainedError?
    else if exists span :: span in spans && LastsFor(span.event.attributes, config, threshold) then reason.RetainedSlow?
    else if config.fnv(traceId) % modulo == 0 then reason.RetainedHealthySample?
    else reason.DroppedHealthySample?
  }

  lemma VerdictByAttributes(traceId: string, spans: set<Envelope>, config: Config)
    ensures ReasonFits(traceId, spans, config, Verdict(traceId, spans, config))
    ensures Retains(Verdict(traceId, spans, config)) <==>
            !ReasonFits(traceId, spans, config, DroppedHealthySample)
  {
    forall span | span in spans ensures IsError(span) <==> FailedBy(span.event.attributes) {
      ErrorByAttributes(span);
    }
    hide IsError, FailedBy;
    var c := WithDefaults(config);
    forall span | span in spans
      ensures IsSlow(span, c) <==> LastsFor(span.event.attributes, config, c.slowThreshold)
    {
    }
  }
}
