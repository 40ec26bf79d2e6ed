// internal/ingest/gateway.go with the durable batch stager: a request is accepted
// as a whole or leaves no trace, and what the gateway establishes about an event
// holds of every stored copy of it.
module Gateway {
  import opened Telemetry
  import opened TailTables
  import opened TailStore
  import opened Redaction
  import opened Tenancy
  import opened Otlp
  import C = PolicyCache
  import L = Ledger
  import T = TailMachine
  import P = Pipeline
  import O = ReachableOrder
  import TailOrder
  import TailSafety
  import Guarantees
  import Broker

  datatype Policy = Policy(version: string, patterns: seq<Pattern>)

  // The envelope the gateway makes of an event.
  ghost predicate EnvelopeFor(lib: Library, tenant: string, policy: Policy, event: Event, e: Envelope) {
    && e.schemaVersion == 2 && e.tenantId == tenant && e.eventKey == tenant + ":" + event.eventId
    && e.event == Event(event.eventId, event.signal, event.traceId, event.spanId, event.parentSpanId, event.name,
                        e.event.attributes)
    && SanitizedAs(lib, policy.patterns, policy.version, event.attributes, e.event.attributes, e.policy)
    && Cleans(lib, policy.patterns, policy.version, event.attributes, e.event.attributes, e.policy)
  }

  // Some gateway made the envelope of a valid event.
  ghost predicate Made(lib: Library, e: Envelope) {
    exists policy: Policy, event: Event :: e.tenantId != "" && Valid(event)
      && EnvelopeFor(lib, e.tenantId, policy, event, e)
  }

  // No attribute under a sensitive key is left, and the receipt names each of them.
  ghost predicate Redacts(lib: Library, attributes: map<string, string>, receipt: Receipt) {
    receipt.policyVersion != "" && HidesSecrets(lib, attributes, receipt)
  }

  lemma MadeIsFit(lib: Library, e: Envelope)
    requires Made(lib, e)
    ensures e.eventKey != "" && e.tenantId != "" && Broker.SupportedVersion(e.schemaVersion)
    ensures OwnKey(e.eventKey, e.tenantId)
    ensures Redacts(lib, e.event.attributes, e.policy)
  {
    var policy, event :| e.tenantId != "" && Valid(event) && EnvelopeFor(lib, e.tenantId, policy, event, e);
    hide Valid, Secret, SanitizedAs;
    KeyOfIsOwn(e.tenantId, event.eventId);
    SanitizedCleans(lib, policy.patterns, policy.version, event.attributes, e.event.attributes, e.policy);
  }

  // A machine whose gateways stage only what they made.
  ghost predicate Gated(lib: Library, u: T.Setup) {
    forall e :: u.made(e) ==> Made(lib, e)
  }

  lemma GatedIsProcessable(lib: Library, u: T.Setup)
    requires Gated(lib, u)
    ensures TailSafety.MadeIsProcessable(u)
    ensures forall e :: u.made(e) ==> OwnKey(e.eventKey, e.tenantId)
  {
    hide Made, OwnKey;
    forall e | u.made(e)
      ensures e.eventKey != "" && e.tenantId != "" && Broker.SupportedVersion(e.schemaVersion)
      ensures OwnKey(e.eventKey, e.tenantId)
    {
      MadeIsFit(lib, e);
    }
  }

  // In every reachable state, each buffered, outgoing and published copy is one a
  // gateway made, each stored row is the row of such a one, none carries a
  // sensitive attribute, and no gateway's event is dead-lettered.
  lemma RedactionReachesEveryStore(lib: Library, u: T.Setup, s: P.State)
    requires Gated(lib, u) && P.Reachable(u, s)
    ensures forall k :: k in s.tail.db.buffers ==> Proper(lib, s.tail.db.buffers[k].envelope)
    ensures forall k :: k in s.tail.db.outbox ==> Proper(lib, s.tail.db.outbox[k].envelope)
    ensures forall i :: 0 <= i < |s.tail.log| && Broker.Processable(s.tail.log[i]) ==>
              Proper(lib, s.tail.log[i].payload.envelope)
    ensures forall row :: row in s.delivery.sink ==>
              Redacts(lib, row.event.attributes, row.policy) && exists e :: Made(lib, e) && row == L.RowOf(e)
    ensures forall i :: i in s.delivery.deadLetters ==>
              i < |s.tail.log| && (s.tail.log[i].payload.Decoded? ==> !u.made(s.tail.log[i].payload.envelope))
  {
    hide Made, Redacts, P.Reachable;
    GatedIsProcessable(lib, u);
    Guarantees.FactsReachEveryStore(u, s);
    forall e | u.made(e) ensures Proper(lib, e) {
      MadeIsFit(lib, e);
    }
    forall row | row in s.delivery.sink
      ensures Redacts(lib, row.event.attributes, row.policy) && exists e :: Made(lib, e) && row == L.RowOf(e)
    {
      var e :| u.made(e) && row == L.RowOf(e);
      assert Proper(lib, e);
    }
  }

  ghost predicate Proper(lib: Library, e: Envelope) {
    Made(lib, e) && Redacts(lib, e.event.attributes, e.policy)
  }

  // ---------- the policy ----------

  // The configured patterns, and then those the expressions compile to.
  ghost predicate Follows(lib: Library, configured: seq<Pattern>, expressions: seq<string>, all: seq<Pattern>) {
    && |all| == |configured| + |expressions| && all[..|configured|] == configured
    && forall i :: 0 <= i < |expressions| ==> Some(all[|configured| + i]) == lib.compile(expressions[i])
  }

  lemma FollowsOn(lib: Library, configured: seq<Pattern>, expressions: seq<string>, all: seq<Pattern>, i: nat,
                  pattern: Pattern)
    requires i < |expressions| && Follows(lib, configured, expressions[..i], all)
    requires lib.compile(expressions[i]) == Some(pattern)
    ensures Follows(lib, configured, expressions[..i + 1], all + [pattern])
  {
  }

  lemma NothingFollows(lib: Library, configured: seq<Pattern>, expressions: seq<string>)
    ensures Follows(lib, configured, expressions[..0], configured)
  {
  }

  datatype Refusal = PolicyUnavailable | InvalidOTLP | NotStaged(error: StageError)

  class Gateway {
    const lib: Library
    const policyVersion: string
    const patterns: seq<Pattern>
    const stager: Store

    constructor (lib: Library, policyVersion: string, patterns: seq<Pattern>, stager: Store)
      ensures this.lib == lib && this.policyVersion == policyVersion && this.patterns == patterns
      ensures this.stager == stager
    {
      this.lib, this.policyVersion, this.patterns, this.stager := lib, policyVersion, patterns, stager;
    }

    // Which policy applies: the configured one without a resolver or a tenant policy,
    // the tenant's in addition if it is usable, and none if it is not to be had.
    ghost predicate Chooses(resolved: Option<C.Result>, policy: Option<Policy>) {
      if resolved == None || (resolved.value.Served? && !resolved.value.policy.found) then
        policy == Some(Policy(policyVersion, patterns))
      else if resolved.value.Served? && C.Usable(lib, resolved.value.policy) then
        && policy.Some? && policy.value.version == resolved.value.policy.version
        && Follows(lib, patterns, resolved.value.policy.expressions, policy.value.patterns)
      else policy == None
    }

    // gateway.go:218-245; `resolved` is None without a resolver. The tenant's
    // patterns follow the configured ones, and none is dropped silently.
    method ResolvePolicy(resolved: Option<C.Result>) returns (policy: Option<Policy>)
      ensures Chooses(resolved, policy)
    {
      hide Follows, C.Usable;
      if resolved.Some? && resolved.value.Served? {
        C.UsableIsValid(lib, resolved.value.policy);
      }
      var all := patterns;
      if resolved.None? {
        return Some(Policy(policyVersion, all));
      }
      if resolved.value.Failed? {
        return None;
      }
      var p := resolved.value.policy;
      if !p.found {
        return Some(Policy(policyVersion, all));
      }
      if p.version == "" {
        return None;
      }
      NothingFollows(lib, patterns, p.expressions);
      for i := 0 to |p.expressions|
        invariant Follows(lib, patterns, p.expressions[..i], all)
        invariant forall j :: 0 <= j < i ==> C.ValidExpression(lib, p.expressions[j])
      {
        if |p.expressions[i]| == 0 || |p.expressions[i]| > 512 {
          return None;
        }
        var compiled := lib.compile(p.expressions[i]);
        if compiled.None? {
          return None;
        }
        FollowsOn(lib, patterns, p.expressions, all, i, compiled.value);
        all := all + [compiled.value];
      }
      assert p.expressions[..|p.expressions|] == p.expressions;
      return Some(Policy(p.version, all));
    }

    // gateway.go:189-198
    method Seal(tenant: string, policy: Policy, events: seq<Event>) returns (envelopes: Option<seq<Envelope>>)
      ensures envelopes.Some? <==> forall i :: 0 <= i < |events| ==> Valid(events[i])
      ensures envelopes.Some? ==> |envelopes.value| == |events|
                                  && forall i :: 0 <= i < |events| ==>
                                       EnvelopeFor(lib, tenant, policy, events[i], envelopes.value[i])
    {
      hide Valid, SanitizedAs, Cleans;
      var made: seq<Envelope> := [];
      for i := 0 to |events|
        invariant |made| == i && forall j :: 0 <= j < i ==>
                    Valid(events[j]) && EnvelopeFor(lib, tenant, policy, events[j], made[j])
      {
        if !Valid(events[i]) {
          return None;
        }
        var attributes, receipt := Sanitize(lib, events[i].attributes, policy.version, policy.patterns);
        made := made + [Envelope(CURRENT_ENVELOPE_VERSION, tenant, events[i].(attributes := attributes), receipt,
                                 tenant + ":" + events[i].eventId)];
      }
      return Some(made);
    }

    // gateway.go:185-202. Acceptance is one staging step of the machine, of exactly
    // one envelope per event; a refusal leaves the store as it was.
    method AcceptEvents(tenant: string, events: seq<Event>, resolved: Option<C.Result>, now: int,
                        locks: Locks, ghost u: T.Setup, ghost s: T.State)
      returns (refusal: Option<Refusal>, ghost policy: Policy, ghost envelopes: seq<Envelope>, ghost step: T.Action)
      requires u.shard == stager.shard && (forall e :: Made(lib, e) ==> u.made(e)) && s.db == stager.Snapshot()
      modifies stager
      ensures refusal.Some? ==> stager.Snapshot() == old(stager.Snapshot())
      ensures refusal == Some(PolicyUnavailable) <==> Chooses(resolved, None)
      ensures refusal.None? ==> Chooses(resolved, Some(policy))
      ensures refusal.None? ==> |envelopes| == |events| && forall i :: 0 <= i < |events| ==>
                Valid(events[i]) && EnvelopeFor(lib, tenant, policy, events[i], envelopes[i])
      ensures refusal.None? && events != [] ==>
                && step.Stage? && step.batch == envelopes && T.Enabled(u, s, step)
                && T.Do(u, s, step).db == stager.Snapshot()
                && (forall e :: e in envelopes ==> e.eventKey in T.Do(u, s, step).acked)
      ensures (exists i :: 0 <= i < |events| && !Valid(events[i])) ==>
                refusal in {Some(PolicyUnavailable), Some(InvalidOTLP)}
    {
      hide Valid, EnvelopeFor, Made, T.Enabled, T.Do, Grouping, LegitVictims, TailTables.StageBatch, Follows, C.Usable;
      policy, envelopes, step := Policy("", []), [], T.Stop(0);
      var chosen := ResolvePolicy(resolved);
      if chosen.None? {
        return Some(PolicyUnavailable), policy, envelopes, step;
      }
      policy := chosen.value;
      var made := Seal(tenant, chosen.value, events);
      if made.None? {
        return Some(InvalidOTLP), policy, envelopes, step;
      }
      envelopes := made.value;
      ghost var before := stager.Snapshot();
      ghost var groups, victims;
      var error;
      error, groups, victims := stager.StageBatch(made.value, now, locks);
      if error.Some? {
        return Some(NotStaged(error.value)), policy, envelopes, step;
      }
      step := T.Stage(now, locks, envelopes, groups, victims);
      if events != [] {
        SealedIsMade(lib, tenant, policy, events, envelopes);
        MadeMayBeStaged(lib, u, tenant, envelopes);
        StagedIsAStep(u, s, step, stager.Snapshot());
      }
      return None, policy, envelopes, step;
    }

    // native_otlp.go:52-127, otlp.go:76-155: one event per record in nested order,
    // between 1 and 200 and all valid, or nothing is staged.
    method AcceptRequest<R>(tenant: string, convert: Conversion<R>, request: seq<Section<R>>,
                            resolved: Option<C.Result>, now: int,
                            locks: Locks, ghost u: T.Setup, ghost s: T.State)
      returns (refusal: Option<Refusal>, ghost events: seq<Event>, ghost policy: Policy,
               ghost envelopes: seq<Envelope>, ghost step: T.Action)
      requires u.shard == stager.shard && (forall e :: Made(lib, e) ==> u.made(e)) && s.db == stager.Snapshot()
      modifies stager
      ensures refusal.Some? ==> stager.Snapshot() == old(stager.Snapshot())
      ensures !Normalizable(convert, request) ==> refusal == Some(InvalidOTLP)
      ensures refusal.None? ==> Chooses(resolved, Some(policy))
      ensures refusal.None? ==>
                && Normalizes(convert, request, events) && |envelopes| == |events|
                && (forall i :: 0 <= i < |events| ==> EnvelopeFor(lib, tenant, policy, events[i], envelopes[i]))
                && step.Stage? && step.batch == envelopes && T.Enabled(u, s, step)
                && T.Do(u, s, step).db == stager.Snapshot()
    {
      hide Valid, EnvelopeFor, Made, Chooses;
      events, policy, envelopes, step := [], Policy("", []), [], T.Stop(0);
      var collected := Collect(convert, request);
      if collected.None? {
        return Some(InvalidOTLP), events, policy, envelopes, step;
      }
      events := collected.value;
      refusal, policy, envelopes, step := AcceptEvents(tenant, collected.value, resolved, now, locks, u, s);
    }
  }

  lemma SealedIsMade(lib: Library, tenant: string, policy: Policy, events: seq<Event>, envelopes: seq<Envelope>)
    requires |envelopes| == |events|
    requires forall i :: 0 <= i < |events| ==>
               Valid(events[i]) && EnvelopeFor(lib, tenant, policy, events[i], envelopes[i])
    ensures tenant != "" ==> forall e :: e in envelopes ==> Made(lib, e)
    ensures forall e :: e in envelopes ==> e.tenantId == tenant
  {
    hide Valid, SanitizedAs, Cleans;
    forall i | 0 <= i < |envelopes|
      ensures envelopes[i].tenantId == tenant && (tenant != "" ==> Made(lib, envelopes[i]))
    {
      assert EnvelopeFor(lib, tenant, policy, events[i], envelopes[i]);
    }
  }

  // The trace of an accepted event could have been another.
  lemma MadeInAnyTrace(lib: Library, e: Envelope, trace: string)
    requires Made(lib, e) && 0 < |trace| <= 128
    ensures Made(lib, e.(event := e.event.(traceId := trace)))
  {
    var policy: Policy, event: Event :| Valid(event) && EnvelopeFor(lib, e.tenantId, policy, event, e);
    var moved := event.(traceId := trace);
    assert Valid(moved) && EnvelopeFor(lib, e.tenantId, policy, moved, e.(event := e.event.(traceId := trace)));
  }

  // So the order of a map walk matters in the runs of a gateway exactly as
  // ReachableOrder says.
  lemma OrderMattersInGatewayRuns(lib: Library, u: T.Setup, batch: seq<Envelope>)
    requires (forall e :: u.made(e) <==> Made(lib, e)) && (forall e :: e in batch ==> u.made(e))
    requires O.Fits(u.shard, batch)
    ensures O.OrderIndependentInRuns(u, batch)
            <==> (TailOrder.OneTenant(batch) ==> TailOrder.SharedKeysRepeat(batch))
  {
    hide Made, O.OrderIndependentInRuns, TailOrder.SharedKeysRepeat, O.Fits;
    forall e, trace: string | u.made(e) && 0 < |trace| <= 128 ensures u.made(O.Moved(e, trace)) {
      MadeInAnyTrace(lib, e, trace);
    }
    O.OrderIndependentInRunsExactly(u, batch);
  }

  lemma MadeMayBeStaged(lib: Library, u: T.Setup, tenant: string, envelopes: seq<Envelope>)
    requires forall e :: Made(lib, e) ==> u.made(e)
    requires tenant != "" ==> forall e :: e in envelopes ==> Made(lib, e)
    ensures tenant != "" ==> forall e :: e in envelopes ==> u.made(e)
  {
    hide Made;
  }

  lemma StagedIsAStep(u: T.Setup, s: T.State, step: T.Action, after: Tables)
    requires step.Stage? && |step.groups| == |step.victims| && step.batch != []
    requires TailTables.StageBatch(s.db, u.shard, step.now, step.batch, step.groups, step.victims) == Accepted(after)
    requires Grouping(step.batch, step.groups)
    requires LegitVictims(s.db, u.shard, step.now, step.locks, step.batch[0].tenantId, step.groups, step.victims)
    requires step.batch[0].tenantId != "" ==> forall e :: e in step.batch ==> u.made(e)
    ensures T.Enabled(u, s, step) && T.Do(u, s, step).db == after
    ensures forall e :: e in step.batch ==> e.eventKey in T.Do(u, s, step).acked
  {
    hide StageGroups, LegitVictims, Grouping, T.RuledOut;
  }
}
