// internal/sampling/sampler.go: the in-memory sampler, which decides while spans
// arrive, beside the batch classifier Decide.
module Streaming {
  import opened Telemetry
  import opened Sampling

  datatype Buffer = Buffer(since: int, spans: seq<Envelope>)
  type Buffers = map<string, Buffer>

  function Configured(config: Config): Config {
    config.(maxTraces := if config.maxTraces < 1 then 1000 else config.maxTraces,
            maxSpansPerTrace := if config.maxSpansPerTrace < 1 then 100 else config.maxSpansPerTrace,
            healthySampleModulo := if config.healthySampleModulo < 1 then 100 else config.healthySampleModulo,
            slowThreshold := if config.slowThreshold <= 0 then SECOND else config.slowThreshold)
  }

  predicate Settled(c: Config) {
    c.maxTraces >= 1 && c.maxSpansPerTrace >= 1 && c.healthySampleModulo >= 1 && c.slowThreshold > 0
  }

  predicate Interesting(e: Envelope, c: Config) {
    IsError(e) || IsSlow(e, c)
  }

  // A buffer within the limit, with spans of its trace that are neither errors nor slow.
  ghost predicate Quiet(spans: seq<Envelope>, id: string, c: Config) {
    |spans| <= c.maxSpansPerTrace && forall e :: e in spans ==> !Interesting(e, c) && e.event.traceId == id
  }

  ghost predicate QuietBuffers(traces: Buffers, c: Config) {
    forall t :: t in traces ==> traces[t].spans != [] && Quiet(traces[t].spans, t, c)
  }

  ghost predicate Invariant(traces: Buffers, c: Config) {
    |traces| <= c.maxTraces && QuietBuffers(traces, c)
  }

  // ---------- which trace is evicted ----------

  // An order in which Go may walk the map.
  ghost predicate Walks(order: seq<string>, ids: set<string>) {
    && (forall i :: 0 <= i < |order| ==> order[i] in ids)
    && (forall i, j :: 0 <= i < j < |order| ==> order[i] != order[j])
    && (forall id :: id in ids ==> id in order)
  }

  // The identifier the loop of evictOldest ends with; "" also means "none yet".
  function Scan(traces: Buffers, order: seq<string>): (id: string)
    requires forall t :: t in order ==> t in traces
    ensures order != [] ==> id in order
    ensures order == [] ==> id == ""
  {
    if order == [] then ""
    else
      var last := order[|order| - 1];
      var id := Scan(traces, order[..|order| - 1]);
      if id == "" || traces[last].since < traces[id].since then last else id
  }

  ghost predicate Earliest(traces: Buffers, ids: seq<string>, id: string)
    requires forall t :: t in ids ==> t in traces
  {
    id in ids && forall t :: t in ids ==> traces[id].since <= traces[t].since
  }

  // The trace without an identifier is older than each of the others.
  ghost predicate NamelessIsOldest(traces: Buffers, ids: seq<string>)
    requires forall t :: t in ids ==> t in traces
  {
    "" in ids && forall t :: t in ids && t != "" ==> traces[""].since < traces[t].since
  }

  lemma {:induction false} ScanCases(traces: Buffers, order: seq<string>)
    requires order != [] && (forall t :: t in order ==> t in traces)
    requires forall i, j :: 0 <= i < j < |order| ==> order[i] != order[j]
    ensures Earliest(traces, order, Scan(traces, order)) || NamelessIsOldest(traces, order)
    ensures Scan(traces, order) == "" ==> NamelessIsOldest(traces, order)
  {
    var last, rest := order[|order| - 1], order[..|order| - 1];
    assert forall t :: t in order <==> t in rest || t == last;
    assert last !in rest;
    if rest == [] {
      assert Scan(traces, rest) == "";
    } else {
      ScanCases(traces, rest);
      hide Earliest, NamelessIsOldest;
      ScanStep(traces, order, rest, last);
    }
  }

  lemma ScanStep(traces: Buffers, order: seq<string>, rest: seq<string>, last: string)
    requires order != [] && (forall t :: t in order ==> t in traces) && rest != []
    requires last == order[|order| - 1] && rest == order[..|order| - 1] && last !in rest
    requires forall t :: t in order <==> t in rest || t == last
    requires Earliest(traces, rest, Scan(traces, rest)) || NamelessIsOldest(traces, rest)
    requires Scan(traces, rest) == "" ==> NamelessIsOldest(traces, rest)
    ensures Earliest(traces, order, Scan(traces, order)) || NamelessIsOldest(traces, order)
    ensures Scan(traces, order) == "" ==> NamelessIsOldest(traces, order)
  {
    var id := Scan(traces, rest);
    assert Scan(traces, order) == if id == "" || traces[last].since < traces[id].since then last else id;
    hide Scan;
  }

  // An order that ends with a named trace never evicts the nameless one.
  lemma NamedLast(traces: Buffers, order: seq<string>)
    requires order != [] && order[|order| - 1] != "" && forall t :: t in order ==> t in traces
    ensures Scan(traces, order) != ""
  {
  }

  lemma {:induction false} OrderEndingWith(ids: set<string>, last: string) returns (order: seq<string>)
    requires last in ids
    ensures Walks(order, ids) && order != [] && order[|order| - 1] == last
  {
    order := [last];
    var rest := ids - {last};
    while rest != {}
      invariant rest <= ids && (forall id :: id in ids <==> id in rest || id in order)
      invariant forall i :: 0 <= i < |order| ==> order[i] !in rest && order[i] in ids
      invariant forall i, j :: 0 <= i < j < |order| ==> order[i] != order[j]
      invariant order != [] && order[|order| - 1] == last
      decreases rest
    {
      var id :| id in rest;
      rest := rest - {id};
      order := [id] + order;
    }
  }

  // A trace without identifier is open, older than each other one, and not alone.
  ghost predicate NamelessHides(traces: Buffers) {
    "" in traces && |traces| > 1 && forall t :: t in traces && t != "" ==> traces[""].since < traces[t].since
  }

  // Eviction picks an earliest trace whichever way the map is walked, except
  // exactly when the oldest of several has no identifier.
  lemma EvictionPicksEarliestExactly(traces: Buffers)
    requires traces != map[]
    ensures (forall order :: Walks(order, traces.Keys) ==> Earliest(traces, order, Scan(traces, order)))
            <==> !NamelessHides(traces)
  {
    if NamelessHides(traces) {
      SingleOrMore(traces.Keys, "");
      var other :| other in traces.Keys && other != "";
      var order := OrderEndingWith(traces.Keys, other);
      NamedLast(traces, order);
      assert !Earliest(traces, order, Scan(traces, order));
    } else {
      forall order | Walks(order, traces.Keys) ensures Earliest(traces, order, Scan(traces, order)) {
        ScanIsEarliest(traces, order);
      }
    }
  }

  lemma ScanIsEarliest(traces: Buffers, order: seq<string>)
    requires traces != map[] && Walks(order, traces.Keys)
    requires !NamelessHides(traces)
    ensures Earliest(traces, order, Scan(traces, order))
  {
    var t :| t in traces;
    assert t in order;
    ScanCases(traces, order);
    if NamelessIsOldest(traces, order) {
      SingleOrMore(traces.Keys, "");
    }
  }

  lemma ScanGrows(traces: Buffers, order: seq<string>, last: string)
    requires last in traces && forall t :: t in order ==> t in traces
    ensures var id := Scan(traces, order);
            && (id != "" ==> id in traces)
            && Scan(traces, order + [last]) == if id == "" || traces[last].since < traces[id].since then last else id
  {
    assert (order + [last])[..|order|] == order;
  }

  lemma SingleOrMore(ids: set<string>, id: string)
    requires id in ids
    ensures |ids| <= 1 ==> ids == {id}
    ensures |ids| > 1 ==> exists other :: other in ids && other != id
  {
    var others := ids - {id};
    assert ids == others + {id};
    if |ids| > 1 {
      var other :| other in others;
    }
  }

  // ---------- observing and completing ----------

  function Admitted(traces: Buffers, c: Config, traceId: string, now: int, order: seq<string>): Buffers
    requires forall t :: t in order ==> t in traces
  {
    if traceId in traces then traces
    else (if |traces| >= c.maxTraces then traces - {Scan(traces, order)} else traces)[traceId := Buffer(now, [])]
  }

  function Pressure(traces: Buffers, c: Config, traceId: string, order: seq<string>): Option<Decision>
    requires forall t :: t in order ==> t in traces
  {
    if traceId !in traces && |traces| >= c.maxTraces
      then Some(Decision(Scan(traces, order), EvictedPressure, false, true, []))
    else None
  }

  function Observed(traces: Buffers, c: Config, e: Envelope, now: int, order: seq<string>): (Buffers, Option<Decision>)
    requires forall t :: t in order ==> t in traces
  {
    var id := e.event.traceId;
    var open := Admitted(traces, c, id, now, order);
    var spans := open[id].spans;
    if |spans| >= c.maxSpansPerTrace then (open - {id}, Some(Decision(id, EvictedSpanLimit, false, true, [])))
    else if IsError(e) then (open - {id}, Some(Decision(id, RetainedError, true, false, spans + [e])))
    else if IsSlow(e, c) then (open - {id}, Some(Decision(id, RetainedSlow, true, false, spans + [e])))
    else (open[id := open[id].(spans := spans + [e])], Pressure(traces, c, id, order))
  }

  // No trace changes but the given one and, if there is one, the victim, which goes.
  ghost predicate OthersKept(before: Buffers, after: Buffers, id: string, victim: Option<string>) {
    && (forall t :: t in after ==> t == id || (t in before && victim != Some(t)))
    && (forall t :: t in before && t != id && victim != Some(t) ==> t in after && after[t] == before[t])
  }

  // What one span does to the open traces, read off its attributes: the trace keeps
  // the time it was opened at, the victim alone makes room, and no other changes.
  ghost predicate ObservedAs(before: Buffers, after: Buffers, c: Config, e: Envelope, now: int, victim: string,
                             decision: Option<Decision>) {
    var id, attributes := e.event.traceId, e.event.attributes;
    var full := id !in before && |before| >= c.maxTraces;
    var open := if id in before then before[id] else Buffer(now, []);
    && OthersKept(before, after, id, if full then Some(victim) else None)
    && if |open.spans| >= c.maxSpansPerTrace then
         id !in after && decision == Some(Decision(id, EvictedSpanLimit, false, true, []))
       else if FailedBy(attributes) then
         id !in after && decision == Some(Decision(id, RetainedError, true, false, open.spans + [e]))
       else if LastsFor(attributes, c, c.slowThreshold) then
         id !in after && decision == Some(Decision(id, RetainedSlow, true, false, open.spans + [e]))
       else
         && id in after && after[id] == Buffer(open.since, open.spans + [e])
         && decision == if full then Some(Decision(victim, EvictedPressure, false, true, [])) else None
  }

  lemma ObservedByAttributes(traces: Buffers, c: Config, e: Envelope, now: int, order: seq<string>)
    requires forall t :: t in order ==> t in traces
    ensures var (after, decision) := Observed(traces, c, e, now, order);
            ObservedAs(traces, after, c, e, now, Scan(traces, order), decision)
  {
    hide IsError, IsSlow, FailedBy, LastsFor, Scan, Admitted, Decide, OthersKept;
    ErrorByAttributes(e);
    OthersObserved(traces, c, e, now, order);
    SlowByAttributes(e, c);
    AdmittedRows(traces, c, e.event.traceId, now, order);
  }

  lemma OthersObserved(traces: Buffers, c: Config, e: Envelope, now: int, order: seq<string>)
    requires forall t :: t in order ==> t in traces
    ensures var full := e.event.traceId !in traces && |traces| >= c.maxTraces;
            OthersKept(traces, Observed(traces, c, e, now, order).0, e.event.traceId,
                       if full then Some(Scan(traces, order)) else None)
  {
    hide IsError, IsSlow, Scan, Admitted, OthersKept;
    var id := e.event.traceId;
    var open := Admitted(traces, c, id, now, order);
    var full := id !in traces && |traces| >= c.maxTraces;
    AdmittedRows(traces, c, id, now, order);
    OthersStay(traces, open, id, if full then Some(Scan(traces, order)) else None,
               Buffer(open[id].since, open[id].spans + [e]));
  }

  lemma OthersStay(traces: Buffers, open: Buffers, id: string, victim: Option<string>, b: Buffer)
    requires OthersKept(traces, open, id, victim)
    ensures OthersKept(traces, open - {id}, id, victim) && OthersKept(traces, open[id := b], id, victim)
  {
  }

  lemma SlowByAttributes(e: Envelope, c: Config)
    ensures IsSlow(e, c) <==> LastsFor(e.event.attributes, c, c.slowThreshold)
  {
  }

  lemma AdmittedRows(traces: Buffers, c: Config, id: string, now: int, order: seq<string>)
    requires forall t :: t in order ==> t in traces
    ensures var open := Admitted(traces, c, id, now, order);
            var full := id !in traces && |traces| >= c.maxTraces;
            && id in open && open[id] == (if id in traces then traces[id] else Buffer(now, []))
            && OthersKept(traces, open, id, if full then Some(Scan(traces, order)) else None)
  {
    hide Scan;
  }

  lemma RemovedCount(traces: Buffers, id: string)
    requires id in traces
    ensures |traces - {id}| == |traces| - 1
  {
    assert (traces - {id}).Keys == traces.Keys - {id};
  }

  lemma InsertedCount(traces: Buffers, id: string, b: Buffer)
    ensures |traces[id := b]| == |traces| + if id in traces then 0 else 1
  {
    assert traces[id := b].Keys == traces.Keys + {id};
  }

  lemma AdmittedIsWithin(traces: Buffers, c: Config, id: string, now: int, order: seq<string>)
    requires Settled(c) && |traces| <= c.maxTraces && Walks(order, traces.Keys)
    ensures |Admitted(traces, c, id, now, order)| <= c.maxTraces
  {
    if id !in traces {
      if |traces| >= c.maxTraces {
        var t :| t in traces.Keys;
        assert t in order;
        RemovedCount(traces, Scan(traces, order));
        InsertedCount(traces - {Scan(traces, order)}, id, Buffer(now, []));
      } else {
        InsertedCount(traces, id, Buffer(now, []));
      }
    }
  }

  lemma ObserveKeepsCount(traces: Buffers, c: Config, e: Envelope, now: int, order: seq<string>)
    requires Settled(c) && |traces| <= c.maxTraces && Walks(order, traces.Keys)
    ensures |Observed(traces, c, e, now, order).0| <= c.maxTraces
  {
    var id := e.event.traceId;
    var open := Admitted(traces, c, id, now, order);
    AdmittedIsWithin(traces, c, id, now, order);
    RemovedCount(open, id);
    InsertedCount(open, id, open[id].(spans := open[id].spans + [e]));
    hide IsError, IsSlow, Scan, Admitted, Walks, Pressure;
  }

  lemma ObserveKeepsQuiet(traces: Buffers, c: Config, e: Envelope, now: int, order: seq<string>)
    requires Settled(c) && QuietBuffers(traces, c) && (forall t :: t in order ==> t in traces)
    ensures QuietBuffers(Observed(traces, c, e, now, order).0, c)
  {
    var id := e.event.traceId;
    var spans := Admitted(traces, c, id, now, order)[id].spans;
    assert Quiet(spans, id, c);
    QuietAppend(spans, e, c);
    hide IsError, IsSlow, Scan, Quiet;
  }

  lemma QuietAppend(spans: seq<Envelope>, e: Envelope, c: Config)
    requires Quiet(spans, e.event.traceId, c)
    ensures |spans| < c.maxSpansPerTrace && !Interesting(e, c) ==> Quiet(spans + [e], e.event.traceId, c)
  {
    hide Interesting;
  }

  lemma ObserveKeepsInvariant(traces: Buffers, c: Config, e: Envelope, now: int, order: seq<string>)
    requires Settled(c) && Invariant(traces, c) && Walks(order, traces.Keys)
    ensures Invariant(Observed(traces, c, e, now, order).0, c)
  {
    hide Observed, Interesting;
    ObserveKeepsCount(traces, c, e, now, order);
    ObserveKeepsQuiet(traces, c, e, now, order);
  }

  // An eviction under pressure is reported exactly when the new span is neither
  // an error nor slow; otherwise the evicted trace disappears unreported.
  lemma EvictionReportedExactly(traces: Buffers, c: Config, e: Envelope, now: int, order: seq<string>)
    requires Settled(c) && Invariant(traces, c) && Walks(order, traces.Keys)
    requires e.event.traceId !in traces && |traces| >= c.maxTraces
    ensures var victim, (after, d) := Scan(traces, order), Observed(traces, c, e, now, order);
            && victim in traces && victim !in after
            && d.Some?
            && ((d.value.reason.EvictedPressure? && d.value.traceId == victim) <==> !Interesting(e, c))
            && (Interesting(e, c) ==> d.value.retained && d.value.traceId == e.event.traceId)
  {
    var t :| t in traces.Keys;
    assert t in order;
  }

  // Completing a trace says what the batch classifier says of its spans.
  lemma QuietTraceIsSampled(traces: Buffers, c: Config, id: string)
    requires Settled(c) && Invariant(traces, c) && id in traces
    ensures Decide(id, traces[id].spans, c)
            == if Sample(id, c) then Decision(id, RetainedHealthySample, true, false, traces[id].spans)
               else Decision(id, DroppedHealthySample, false, false, [])
  {
    hide IsError, IsSlow, Sample;
    var spans := traces[id].spans;
    forall i | 0 <= i < |spans| ensures !IsError(spans[i]) && !IsSlow(spans[i], c) {
      assert spans[i] in spans && !Interesting(spans[i], c);
    }
  }

  // ---------- one trace, fed span by span ----------

  // The decision on a trace whose spans are fed one after the other until one is
  // made, and which is completed if none is. Only the first span can find the
  // trace closed, so only there does the order of the map walk matter.
  function Fed(traces: Buffers, c: Config, id: string, spans: seq<Envelope>, now: int, order: seq<string>): Decision
    requires c.healthySampleModulo >= 1
    requires forall t :: t in order ==> t in traces
    decreases |spans|
  {
    if spans == [] then
      var kept := if id in traces then traces[id].spans else [];
      (if Sample(id, c) then Decision(id, RetainedHealthySample, true, false, kept)
       else Decision(id, DroppedHealthySample, false, false, []))
    else
      var (after, d) := Observed(traces, c, spans[0], now, order);
      if d.Some? && !d.value.reason.EvictedPressure? then d.value else Fed(after, c, id, spans[1..], now, [])
  }

  ghost predicate InterestingWithin(spans: seq<Envelope>, c: Config, bound: int) {
    exists i :: 0 <= i < |spans| && i < bound && Interesting(spans[i], c)
  }

  lemma {:induction false} FedFromOpen(traces: Buffers, c: Config, id: string, rest: seq<Envelope>, now: int)
    requires Settled(c) && id in traces && |traces[id].spans| <= c.maxSpansPerTrace
    requires forall e :: e in rest ==> e.event.traceId == id
    ensures var room := c.maxSpansPerTrace - |traces[id].spans|;
            Fed(traces, c, id, rest, now, []).retained <==>
                InterestingWithin(rest, c, room) || (|rest| <= room && Sample(id, c))
    decreases |rest|
  {
    hide IsError, IsSlow, Sample;
    var room := c.maxSpansPerTrace - |traces[id].spans|;
    if rest != [] {
      assert rest[0] in rest;
      if room > 0 && !Interesting(rest[0], c) {
        var after := Observed(traces, c, rest[0], now, []).0;
        FedFromOpen(after, c, id, rest[1..], now);
        LaterInteresting(rest, c, room);
      }
    }
  }

  lemma LaterInteresting(rest: seq<Envelope>, c: Config, room: int)
    requires rest != [] && !Interesting(rest[0], c)
    ensures InterestingWithin(rest, c, room) <==> InterestingWithin(rest[1..], c, room - 1)
  {
    if i :| 0 <= i < |rest| && i < room && Interesting(rest[i], c) {
      assert Interesting(rest[1..][i - 1], c);
    }
    if i :| 0 <= i < |rest[1..]| && i < room - 1 && Interesting(rest[1..][i], c) {
      assert Interesting(rest[i + 1], c);
    }
  }

  lemma FirstSpanOpens(traces: Buffers, c: Config, id: string, spans: seq<Envelope>, now: int, order: seq<string>)
    requires Settled(c) && id !in traces && (forall t :: t in order ==> t in traces)
    requires spans != [] && spans[0].event.traceId == id
    ensures Fed(traces, c, id, spans, now, order) == Fed(Admitted(traces, c, id, now, order), c, id, spans, now, [])
  {
    hide IsError, IsSlow, Sample;
  }

  lemma DecideRetains(id: string, spans: seq<Envelope>, c: Config)
    requires Settled(c)
    ensures Decide(id, spans, c).retained <==> InterestingWithin(spans, c, |spans|) || Sample(id, c)
  {
    hide IsError, IsSlow, Sample;
  }

  // Feeding a trace keeps it exactly when the batch classifier keeps the whole
  // sequence, except when the span limit cuts it short: more spans than the limit,
  // none of the first ones an error or slow, and either a later one is or the
  // trace identifier is sampled.
  lemma FeedingAgreesExactly(traces: Buffers, c: Config, id: string, spans: seq<Envelope>, now: int, order: seq<string>)
    requires Settled(c) && Invariant(traces, c) && Walks(order, traces.Keys) && id !in traces
    requires spans != [] && forall e :: e in spans ==> e.event.traceId == id
    ensures Fed(traces, c, id, spans, now, order).retained == Decide(id, spans, c).retained
            <==> || |spans| <= c.maxSpansPerTrace
                 || InterestingWithin(spans, c, c.maxSpansPerTrace)
                 || (!Sample(id, c) && !InterestingWithin(spans, c, |spans|))
  {
    hide Sample, Interesting, Decide, Fed;
    assert spans[0] in spans;
    FirstSpanOpens(traces, c, id, spans, now, order);
    FedFromOpen(Admitted(traces, c, id, now, order), c, id, spans, now);
    DecideRetains(id, spans, c);
  }

  class Sampler {
    const config: Config
    var traces: Buffers

    constructor (config: Config)
      ensures this.config == Configured(config) && traces == map[] && Valid()
      ensures this.config.maxTraces == (if config.maxTraces >= 1 then config.maxTraces else 1000)
      ensures this.config.maxSpansPerTrace == (if config.maxSpansPerTrace >= 1 then config.maxSpansPerTrace else 100)
      ensures this.config.healthySampleModulo
              == (if config.healthySampleModulo >= 1 then config.healthySampleModulo else 100)
      ensures this.config.slowThreshold == (if config.slowThreshold > 0 then config.slowThreshold else 1_000_000_000)
    {
      var modulo := if config.healthySampleModulo < 1 then 100 else config.healthySampleModulo;
      this.config := config.(maxTraces := if config.maxTraces < 1 then 1000 else config.maxTraces,
                             maxSpansPerTrace := if config.maxSpansPerTrace < 1 then 100 else config.maxSpansPerTrace,
                             healthySampleModulo := modulo,
                             slowThreshold := if config.slowThreshold <= 0 then SECOND else config.slowThreshold);
      traces := map[];
    }

    ghost predicate Valid()
      reads this
    {
      Settled(config) && Invariant(traces, config)
    }

    method Observe(envelope: Envelope, now: int) returns (decision: Option<Decision>, ghost order: seq<string>)
      requires Valid()
      modifies this
      ensures Valid() && Walks(order, old(traces).Keys)
      ensures (traces, decision) == Observed(old(traces), config, envelope, now, order)
      ensures (forall t :: t in order ==> t in old(traces))
              && ObservedAs(old(traces), traces, config, envelope, now, Scan(old(traces), order), decision)
    {
      hide IsError, IsSlow, Scan, Invariant, Decide, Observed, ObservedAs;
      decision, order := Take(envelope, now);
      ObservedByAttributes(old(traces), config, envelope, now, order);
      ObserveKeepsInvariant(old(traces), config, envelope, now, order);
    }

    method Take(envelope: Envelope, now: int) returns (decision: Option<Decision>, ghost order: seq<string>)
      modifies this
      ensures Walks(order, old(traces).Keys)
      ensures (traces, decision) == Observed(old(traces), config, envelope, now, order)
    {
      hide IsError, IsSlow, Scan;
      var traceId := envelope.event.traceId;
      var pressure;
      pressure, order := Open(traceId, now);
      var b := traces[traceId];
      hide Walks, Admitted, Pressure;
      if |b.spans| >= config.maxSpansPerTrace {
        traces := traces - {traceId};
        return Some(Decision(traceId, EvictedSpanLimit, false, true, [])), order;
      }
      if IsError(envelope) {
        traces := traces - {traceId};
        return Some(Decision(traceId, RetainedError, true, false, b.spans + [envelope])), order;
      }
      if IsSlow(envelope, config) {
        traces := traces - {traceId};
        return Some(Decision(traceId, RetainedSlow, true, false, b.spans + [envelope])), order;
      }
      traces := traces[traceId := b.(spans := b.spans + [envelope])];
      return pressure, order;
    }

    method Open(traceId: string, now: int) returns (pressure: Option<Decision>, ghost order: seq<string>)
      modifies this
      ensures Walks(order, old(traces).Keys)
      ensures traces == Admitted(old(traces), config, traceId, now, order)
      ensures pressure == Pressure(old(traces), config, traceId, order)
    {
      hide Scan;
      pressure := None;
      order := AnyWalk(traces.Keys);
      if traceId !in traces {
        if |traces| >= config.maxTraces {
          var evicted;
          evicted, order := EvictOldest();
          pressure := Some(evicted);
        }
        traces := traces[traceId := Buffer(now, [])];
      }
    }

    method EvictOldest() returns (decision: Decision, ghost order: seq<string>)
      modifies this
      ensures Walks(order, old(traces).Keys)
      ensures decision == Decision(Scan(old(traces), order), EvictedPressure, false, true, [])
      ensures traces == old(traces) - {decision.traceId}
    {
      hide Scan;
      var id, oldest := "", 0;
      order := [];
      assert Scan(traces, order) == "";
      var pending := traces.Keys;
      while pending != {}
        invariant pending <= traces.Keys && traces == old(traces)
        invariant forall t :: t in traces <==> t in pending || t in order
        invariant forall i :: 0 <= i < |order| ==> order[i] in traces && order[i] !in pending
        invariant forall i, j :: 0 <= i < j < |order| ==> order[i] != order[j]
        invariant id == Scan(traces, order) && (id != "" ==> oldest == traces[id].since)
        decreases pending
      {
        var traceId :| traceId in pending;
        pending := pending - {traceId};
        ScanGrows(traces, order, traceId);
        order := order + [traceId];
        if id == "" || traces[traceId].since < oldest {
          id, oldest := traceId, traces[traceId].since;
        }
      }
      traces := traces - {id};
      decision := Decision(id, EvictedPressure, false, true, []);
    }

    // The trace is closed, and the decision is the batch classifier's.
    method Complete(traceId: string) returns (decision: Option<Decision>)
      requires Valid()
      modifies this
      ensures Valid() && traces == old(traces) - {traceId}
      ensures decision == if traceId in old(traces)
              then Some(Decide(traceId, old(traces)[traceId].spans, config)) else None
    {
      if traceId !in traces {
        return None;
      }
      QuietTraceIsSampled(traces, config, traceId);
      ClosingKeepsInvariant(traces, config, traceId);
      hide Invariant, Decide, Sample;
      var spans := traces[traceId].spans;
      traces := traces - {traceId};
      if Sample(traceId, config) {
        return Some(Decision(traceId, RetainedHealthySample, true, false, spans));
      }
      return Some(Decision(traceId, DroppedHealthySample, false, false, []));
    }
  }

  lemma ClosingKeepsInvariant(traces: Buffers, c: Config, id: string)
    requires Invariant(traces, c) && id in traces
    ensures Invariant(traces - {id}, c)
  {
    assert (traces - {id}).Keys == traces.Keys - {id};
  }

  lemma AnyWalk(ids: set<string>) returns (order: seq<string>)
    ensures Walks(order, ids)
  {
    if ids == {} {
      order := [];
    } else {
      var last :| last in ids;
      order := OrderEndingWith(ids, last);
    }
  }
}
