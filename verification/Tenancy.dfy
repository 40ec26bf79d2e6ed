// Tenants do not interfere: what a staging or a decision does to a tenant's rows
// depends on that tenant's rows alone, and touches no other tenant's. This rests
// on the event keys, which start with the tenant and a colon
// (internal/ingest/gateway.go), and fails exactly when one tenant's identifier
// continues another's with a colon.
module Tenancy {
  import opened Telemetry
  import opened Sampling
  import opened TailTables
  import opened TailInvariants
  import T = TailMachine
  import P = Pipeline
  import TailSafety
  import TailOwners

  function KeyOf(tenant: string, eventId: string): string {
    tenant + ":" + eventId
  }

  predicate OwnKey(key: string, tenant: string) {
    |tenant| < |key| && key[..|tenant|] == tenant && key[|tenant|] == ':'
  }

  lemma KeyOfIsOwn(tenant: string, eventId: string)
    ensures OwnKey(KeyOf(tenant, eventId), tenant)
  {
    var k := KeyOf(tenant, eventId);
    assert k[..|tenant|] == tenant;
  }

  lemma OwnKeyIsKeyOf(key: string, tenant: string)
    requires OwnKey(key, tenant)
    ensures key == KeyOf(tenant, key[|tenant| + 1..])
  {
    assert key == key[..|tenant|] + [key[|tenant|]] + key[|tenant| + 1..];
  }

  // No key belongs to both tenants.
  predicate Separate(a: string, b: string) {
    !OwnKey(b, a) && !OwnKey(a, b)
  }

  // Two tenants can produce the same event key exactly when one of them
  // continues the other with a colon.
  lemma KeysCollideExactly(a: string, b: string)
    requires a != b
    ensures (exists x, y :: KeyOf(a, x) == KeyOf(b, y)) <==> !Separate(a, b)
  {
    if x, y :| KeyOf(a, x) == KeyOf(b, y) {
      CollisionContinues(a, x, b, y);
    }
    if OwnKey(b, a) {
      ContinuationCollides(a, b, "");
    } else if OwnKey(a, b) {
      ContinuationCollides(b, a, "");
    }
  }

  lemma CollisionContinues(a: string, x: string, b: string, y: string)
    requires a != b && KeyOf(a, x) == KeyOf(b, y)
    ensures !Separate(a, b)
  {
    var k := KeyOf(a, x);
    assert k[..|a|] == a && k[|a|] == ':';
    assert KeyOf(b, y)[..|b|] == b && KeyOf(b, y)[|b|] == ':';
    if |a| < |b| {
      assert b[..|a|] == k[..|b|][..|a|] == k[..|a|];
      assert b[|a|] == k[..|b|][|a|];
    } else if |b| < |a| {
      assert a[..|b|] == k[..|a|][..|b|] == k[..|b|];
      assert a[|b|] == k[..|a|][|b|];
    }
  }

  lemma ContinuationCollides(a: string, b: string, y: string)
    requires OwnKey(b, a)
    ensures KeyOf(a, b[|a| + 1..] + ":" + y) == KeyOf(b, y)
  {
    OwnKeyIsKeyOf(b, a);
    assert KeyOf(a, b[|a| + 1..]) + ":" + y == KeyOf(a, b[|a| + 1..] + ":" + y);
  }

  lemma ColonFreeTenantsAreSeparate(a: string, b: string)
    requires ':' !in a && ':' !in b
    ensures Separate(a, b)
  {
  }

  // ---------- agreeing on one tenant's rows ----------

  ghost predicate SameTraces(s: Tables, t: Tables, tenant: string) {
    && (forall id :: id in s.traces && id.tenant == tenant ==> id in t.traces && t.traces[id] == s.traces[id])
    && (forall id :: id in t.traces && id.tenant == tenant ==> id in s.traces)
  }

  ghost predicate SameBuffers(s: Tables, t: Tables, tenant: string) {
    && (forall k :: k in s.buffers && s.buffers[k].home.tenant == tenant ==>
          k in t.buffers && t.buffers[k] == s.buffers[k])
    && (forall k :: k in t.buffers && t.buffers[k].home.tenant == tenant ==>
          k in s.buffers && s.buffers[k] == t.buffers[k])
  }

  ghost predicate SameKeys(s: Tables, t: Tables, tenant: string) {
    && (forall k :: k in s.keys && s.keys[k].home.tenant == tenant ==> k in t.keys && t.keys[k] == s.keys[k])
    && (forall k :: k in t.keys && t.keys[k].home.tenant == tenant ==> k in s.keys && s.keys[k] == t.keys[k])
  }

  ghost predicate SameDecisions(s: Tables, t: Tables, tenant: string) {
    && (forall id :: id in s.decisions && id.tenant == tenant ==>
          id in t.decisions && t.decisions[id] == s.decisions[id])
    && (forall id :: id in t.decisions && id.tenant == tenant ==> id in s.decisions)
  }

  ghost predicate SameMessages(a: map<string, OutboxRow>, b: map<string, OutboxRow>, tenant: string) {
    && (forall k :: k in a && a[k].tenant == tenant ==> k in b && b[k] == a[k])
    && (forall k :: k in b && b[k].tenant == tenant ==> k in a && a[k] == b[k])
  }

  ghost predicate SameOutbox(s: Tables, t: Tables, tenant: string) {
    SameMessages(s.outbox, t.outbox, tenant)
  }

  ghost predicate SameFor(s: Tables, t: Tables, tenant: string) {
    && SameTraces(s, t, tenant) && SameBuffers(s, t, tenant) && SameKeys(s, t, tenant)
    && SameDecisions(s, t, tenant) && SameOutbox(s, t, tenant)
  }

  // No row of another tenant lies under one of the tenant's keys.
  ghost predicate Apart(s: Tables, tenant: string) {
    && (forall k :: k in s.keys && OwnKey(k, tenant) ==> s.keys[k].home.tenant == tenant)
    && (forall k :: k in s.buffers && OwnKey(k, tenant) ==> s.buffers[k].home.tenant == tenant)
    && (forall k :: k in s.outbox && OwnKey(k, tenant) ==> s.outbox[k].tenant == tenant)
  }

  // Each row's key starts with the row's own tenant.
  ghost predicate TenantKeyed(s: Tables) {
    && (forall k :: k in s.keys ==> OwnKey(k, s.keys[k].home.tenant))
    && (forall k :: k in s.buffers ==> OwnKey(k, s.buffers[k].home.tenant))
    && (forall k :: k in s.outbox ==> OwnKey(k, s.outbox[k].tenant))
  }

  // The tenants that have rows, and are separate from the given one.
  ghost predicate Neighbours(s: Tables, tenant: string) {
    && (forall k :: k in s.keys && s.keys[k].home.tenant != tenant ==> Separate(tenant, s.keys[k].home.tenant))
    && (forall k :: k in s.buffers && s.buffers[k].home.tenant != tenant ==> Separate(tenant, s.buffers[k].home.tenant))
    && (forall k :: k in s.outbox && s.outbox[k].tenant != tenant ==> Separate(tenant, s.outbox[k].tenant))
  }

  lemma OwnedByOne(key: string, a: string, b: string)
    requires OwnKey(key, a) && OwnKey(key, b) && Separate(a, b)
    ensures a == b
  {
    OwnKeyIsKeyOf(key, a);
    OwnKeyIsKeyOf(key, b);
    if a != b {
      CollisionContinues(a, key[|a| + 1..], b, key[|b| + 1..]);
    }
  }

  lemma SeparateTenantsAreApart(s: Tables, tenant: string)
    requires TenantKeyed(s) && Neighbours(s, tenant)
    ensures Apart(s, tenant)
  {
    hide OwnKey, Separate;
    forall k | k in s.keys && OwnKey(k, tenant) ensures s.keys[k].home.tenant == tenant {
      if s.keys[k].home.tenant != tenant {
        OwnedByOne(k, tenant, s.keys[k].home.tenant);
      }
    }
    forall k | k in s.buffers && OwnKey(k, tenant) ensures s.buffers[k].home.tenant == tenant {
      if s.buffers[k].home.tenant != tenant {
        OwnedByOne(k, tenant, s.buffers[k].home.tenant);
      }
    }
    forall k | k in s.outbox && OwnKey(k, tenant) ensures s.outbox[k].tenant == tenant {
      if s.outbox[k].tenant != tenant {
        OwnedByOne(k, tenant, s.outbox[k].tenant);
      }
    }
  }

  ghost predicate OwnKeys(es: seq<Envelope>, tenant: string) {
    forall e :: e in es ==> OwnKey(e.eventKey, tenant)
  }

  // ---------- eviction, admission ----------

  lemma SameBuffered(s: Tables, t: Tables, id: TraceKey)
    requires SameBuffers(s, t, id.tenant)
    ensures BufferedIn(s, id) == BufferedIn(t, id)
  {
  }

  lemma SameActive(s: Tables, t: Tables, shard: Sharding, tenant: string, n: Shard)
    requires SameTraces(s, t, tenant)
    ensures ActiveInShard(s, shard, tenant, n) == ActiveInShard(t, shard, tenant, n)
  {
  }

  lemma EvictSame(s: Tables, t: Tables, id: TraceKey, now: int)
    requires SameFor(s, t, id.tenant) && Apart(s, id.tenant) && Apart(t, id.tenant) && id in s.traces
    ensures id in t.traces
    ensures var v, x := Evict(s, id, EvictedPressure, now), Evict(t, id, EvictedPressure, now);
            SameFor(v, x, id.tenant) && Apart(v, id.tenant) && Apart(x, id.tenant)
  {
    SameBuffered(s, t, id);
  }

  lemma OpenSame(s: Tables, t: Tables, now: int, id: TraceKey)
    requires SameFor(s, t, id.tenant) && Apart(s, id.tenant) && Apart(t, id.tenant)
    ensures SameFor(Opened(s, now, id), Opened(t, now, id), id.tenant)
    ensures Apart(Opened(s, now, id), id.tenant) && Apart(Opened(t, now, id), id.tenant)
  {
  }

  lemma AdmitSame(s: Tables, t: Tables, shard: Sharding, now: int, id: TraceKey, victim: Option<TraceKey>)
    requires SameFor(s, t, id.tenant) && Apart(s, id.tenant) && Apart(t, id.tenant)
    requires victim.Some? ==> victim.value.tenant == id.tenant
    ensures SameOutcome(Admit(s, shard, now, id, victim), Admit(t, shard, now, id, victim), id.tenant)
  {
    hide SameFor, Apart, Evict, Opened;
    hide OwnKey;
    SameForTraces(s, t, id.tenant);
    SameActive(s, t, shard, id.tenant, shard(id.trace));
    if HasRoom(s, shard, id) {
      OpenSame(s, t, now, id);
    } else if victim.Some? && victim.value in s.traces {
      EvictSame(s, t, victim.value, now);
      OpenSame(Evict(s, victim.value, EvictedPressure, now), Evict(t, victim.value, EvictedPressure, now), now, id);
    }
  }

  lemma SameForTraces(s: Tables, t: Tables, tenant: string)
    requires SameFor(s, t, tenant)
    ensures SameTraces(s, t, tenant)
  {
  }

  ghost predicate SameOutcome(a: Staged, b: Staged, tenant: string) {
    if a.Accepted? && b.Accepted? then
      SameFor(a.tables, b.tables, tenant) && Apart(a.tables, tenant) && Apart(b.tables, tenant)
    else a == b
  }

  // ---------- adding spans ----------

  lemma SameKnown(s: Tables, t: Tables, tenant: string, key: string)
    requires SameKeys(s, t, tenant) && Apart(s, tenant) && Apart(t, tenant) && OwnKey(key, tenant)
    ensures key in s.keys <==> key in t.keys
    ensures key in s.keys ==> s.keys[key] == t.keys[key]
  {
  }

  lemma {:induction false} SameFresh(s: Tables, t: Tables, tenant: string, es: seq<Envelope>)
    requires SameKeys(s, t, tenant) && Apart(s, tenant) && Apart(t, tenant) && OwnKeys(es, tenant)
    ensures FreshEnvelopes(s.keys, es) == FreshEnvelopes(t.keys, es)
  {
    hide SameKeys, Apart, OwnKey;
    if es != [] {
      assert es[0] in es;
      SameKnown(s, t, tenant, es[0].eventKey);
      SameFresh(s, t, tenant, es[1..]);
    }
  }

  lemma SameInsertable(s: Tables, t: Tables, tenant: string, added: seq<Envelope>)
    requires SameBuffers(s, t, tenant) && Apart(s, tenant) && Apart(t, tenant) && OwnKeys(added, tenant)
    ensures Insertable(s.buffers, added) <==> Insertable(t.buffers, added)
  {
    hide DistinctKeys;
    forall e | e in added ensures e.eventKey in s.buffers <==> e.eventKey in t.buffers {
      assert OwnKey(e.eventKey, tenant);
    }
  }

  lemma RegisterSameKeys(s: Tables, t: Tables, now: int, id: TraceKey, added: map<string, Envelope>)
    requires SameKeys(s, t, id.tenant) && id in s.traces && id in t.traces
    ensures SameKeys(Registered(s, now, id, added), Registered(t, now, id, added), id.tenant)
  {
    hide WithBufferRows, WithKeyRows;
  }

  lemma RegisterSameBuffers(s: Tables, t: Tables, now: int, id: TraceKey, added: map<string, Envelope>)
    requires SameBuffers(s, t, id.tenant) && id in s.traces && id in t.traces
    ensures SameBuffers(Registered(s, now, id, added), Registered(t, now, id, added), id.tenant)
  {
    hide WithBufferRows, WithKeyRows;
  }

  lemma RegisterApart(s: Tables, now: int, id: TraceKey, added: map<string, Envelope>)
    requires Apart(s, id.tenant) && id in s.traces
    ensures Apart(Registered(s, now, id, added), id.tenant)
  {
    hide OwnKey, WithBufferRows, WithKeyRows;
  }

  lemma RegisterSame(s: Tables, t: Tables, now: int, id: TraceKey, added: map<string, Envelope>)
    requires SameFor(s, t, id.tenant) && Apart(s, id.tenant) && Apart(t, id.tenant) && id in s.traces
    ensures id in t.traces
    ensures var v, x := Registered(s, now, id, added), Registered(t, now, id, added);
            SameFor(v, x, id.tenant) && Apart(v, id.tenant) && Apart(x, id.tenant)
  {
    hide Apart, SameKeys, SameBuffers, WithBufferRows, WithKeyRows;
    RegisterSameKeys(s, t, now, id, added);
    RegisterSameBuffers(s, t, now, id, added);
    RegisterApart(s, now, id, added);
    RegisterApart(t, now, id, added);
  }

  lemma AddSpansSame(s: Tables, t: Tables, now: int, id: TraceKey, es: seq<Envelope>)
    requires SameFor(s, t, id.tenant) && Apart(s, id.tenant) && Apart(t, id.tenant) && id in s.traces
    requires OwnKeys(es, id.tenant)
    ensures id in t.traces && s.traces[id] == t.traces[id]
    ensures SameOutcome(AddSpans(s, now, id, es), AddSpans(t, now, id, es), id.tenant)
  {
    hide OwnKey, Apart, SameBuffers, SameKeys, SameDecisions, SameOutbox, Insertable, Registered, KeysOf;
    SameFresh(s, t, id.tenant, es);
    var added := FreshEnvelopes(s.keys, es);
    FreshEnvelopesAreNew(s.keys, es);
    SameInsertable(s, t, id.tenant, added);
    RegisterSame(s, t, now, id, Index(added));
  }

  // ---------- staging ----------

  lemma StageTraceSame(s: Tables, t: Tables, shard: Sharding, now: int, id: TraceKey, es: seq<Envelope>,
                       victim: Option<TraceKey>)
    requires SameFor(s, t, id.tenant) && Apart(s, id.tenant) && Apart(t, id.tenant) && OwnKeys(es, id.tenant)
    requires victim.Some? ==> victim.value.tenant == id.tenant
    ensures SameOutcome(StageTrace(s, shard, now, id, es, victim), StageTrace(t, shard, now, id, es, victim), id.tenant)
  {
    hide OwnKey, Apart, SameBuffers, SameKeys, SameDecisions, SameOutbox, AddSpans, Admit;
    if id !in s.traces {
      AdmitSame(s, t, shard, now, id, victim);
      var a, b := Admit(s, shard, now, id, victim), Admit(t, shard, now, id, victim);
      if a.Accepted? && b.Accepted? {
        AddSpansSame(a.tables, b.tables, now, id, es);
      }
    } else if s.traces[id].status.Decided? {
      forall e | e in es ensures KnownTo(s, id, e.eventKey) <==> KnownTo(t, id, e.eventKey) {
        SameKnown(s, t, id.tenant, e.eventKey);
      }
    } else {
      AddSpansSame(s, t, now, id, es);
    }
  }

  lemma SameVictims(s: Tables, t: Tables, shard: Sharding, locked: set<TraceKey>, id: TraceKey,
                    victim: Option<TraceKey>)
    requires SameTraces(s, t, id.tenant)
    ensures LegitVictim(s, shard, locked, id, victim) <==> LegitVictim(t, shard, locked, id, victim)
  {
    SameActive(s, t, shard, id.tenant, shard(id.trace));
  }

  lemma VictimsAreOwn(s: Tables, shard: Sharding, locked: set<TraceKey>, id: TraceKey, victim: Option<TraceKey>)
    requires LegitVictim(s, shard, locked, id, victim)
    ensures victim.Some? ==> victim.value.tenant == id.tenant
  {
  }

  lemma {:induction false} StageGroupsSame(s: Tables, t: Tables, shard: Sharding, now: int, locks: Locks,
                                           tenant: string,
                                           groups: seq<Group>, victims: seq<Option<TraceKey>>)
    requires |groups| == |victims| && SameFor(s, t, tenant) && Apart(s, tenant) && Apart(t, tenant)
    requires forall i :: 0 <= i < |groups| ==> OwnKeys(groups[i].envelopes, tenant)
    requires LegitVictims(s, shard, now, locks, tenant, groups, victims)
    ensures LegitVictims(t, shard, now, locks, tenant, groups, victims)
    ensures SameOutcome(StageGroups(s, shard, now, tenant, groups, victims),
                        StageGroups(t, shard, now, tenant, groups, victims), tenant)
    decreases |groups|
  {
    hide SameFor, Apart, OwnKeys, StageTrace, LegitVictim;
    if groups != [] {
      var id := TraceKey(tenant, groups[0].trace);
      VictimsAreOwn(s, shard, locks(groups[0].trace), id, victims[0]);
      SameForTraces(s, t, tenant);
      SameVictims(s, t, shard, locks(groups[0].trace), id, victims[0]);
      StageTraceSame(s, t, shard, now, id, groups[0].envelopes, victims[0]);
      var a, b := StageTrace(s, shard, now, id, groups[0].envelopes, victims[0]),
            StageTrace(t, shard, now, id, groups[0].envelopes, victims[0]);
      if a.Accepted? {
        StageGroupsSame(a.tables, b.tables, shard, now, locks, tenant, groups[1..], victims[1..]);
      }
    }
  }

  // ---------- the other tenants ----------

  lemma SameForIsTransitive(s: Tables, t: Tables, v: Tables, tenant: string)
    requires SameFor(s, t, tenant) && SameFor(t, v, tenant)
    ensures SameFor(s, v, tenant)
  {
  }

  lemma EvictSparesOthers(s: Tables, id: TraceKey, now: int, other: string)
    requires id in s.traces && other != id.tenant
    ensures SameFor(s, Evict(s, id, EvictedPressure, now), other)
  {
  }

  lemma AdmitSparesOthers(s: Tables, shard: Sharding, now: int, id: TraceKey, victim: Option<TraceKey>, other: string)
    requires Admit(s, shard, now, id, victim).Accepted? && other != id.tenant
    requires victim.Some? ==> victim.value.tenant == id.tenant
    ensures SameFor(s, Admit(s, shard, now, id, victim).tables, other)
  {
    hide HasRoom, Evict;
    if !HasRoom(s, shard, id) {
      EvictSparesOthers(s, victim.value, now, other);
    }
  }

  lemma RegisterSparesOthers(s: Tables, now: int, id: TraceKey, added: map<string, Envelope>, other: string)
    requires id in s.traces && other != id.tenant
    requires forall k :: k in added ==> k !in s.keys && k !in s.buffers
    ensures SameFor(s, Registered(s, now, id, added), other)
  {
    hide WithBufferRows, WithKeyRows;
  }

  lemma AddSpansSparesOthers(s: Tables, now: int, id: TraceKey, es: seq<Envelope>, other: string)
    requires id in s.traces && other != id.tenant && AddSpans(s, now, id, es).Accepted?
    ensures SameFor(s, AddSpans(s, now, id, es).tables, other)
  {
    hide SameFor, Registered, KeysOf, DistinctKeys;
    var added := FreshEnvelopes(s.keys, es);
    FreshEnvelopesAreNew(s.keys, es);
    if added == [] {
      SameForItself(s, other);
    } else {
      forall k | k in Index(added) ensures k !in s.keys && k !in s.buffers {
        assert Index(added)[k] in added;
      }
      RegisterSparesOthers(s, now, id, Index(added), other);
    }
  }

  lemma SameForItself(s: Tables, tenant: string)
    ensures SameFor(s, s, tenant)
  {
  }

  lemma StageTraceSparesOthers(s: Tables, shard: Sharding, now: int, id: TraceKey, es: seq<Envelope>,
                               victim: Option<TraceKey>, other: string)
    requires StageTrace(s, shard, now, id, es, victim).Accepted? && other != id.tenant
    requires victim.Some? ==> victim.value.tenant == id.tenant
    ensures SameFor(s, StageTrace(s, shard, now, id, es, victim).tables, other)
  {
    hide SameFor, Admit, AddSpans;
    if id !in s.traces {
      var t := Admit(s, shard, now, id, victim).tables;
      AdmitSparesOthers(s, shard, now, id, victim, other);
      AddSpansSparesOthers(t, now, id, es, other);
      SameForIsTransitive(s, t, AddSpans(t, now, id, es).tables, other);
    } else if s.traces[id].status.Decided? {
      SameForItself(s, other);
    } else {
      AddSpansSparesOthers(s, now, id, es, other);
    }
  }

  lemma {:induction false} StageGroupsSparesOthers(s: Tables, shard: Sharding, now: int, locks: Locks,
                                                   tenant: string,
                                                   groups: seq<Group>, victims: seq<Option<TraceKey>>, other: string)
    requires |groups| == |victims| && LegitVictims(s, shard, now, locks, tenant, groups, victims) && other != tenant
    requires StageGroups(s, shard, now, tenant, groups, victims).Accepted?
    ensures SameFor(s, StageGroups(s, shard, now, tenant, groups, victims).tables, other)
    decreases |groups|
  {
    hide SameFor, StageTrace, LegitVictim;
    if groups == [] {
      SameForItself(s, other);
    } else {
      var id := TraceKey(tenant, groups[0].trace);
      VictimsAreOwn(s, shard, locks(groups[0].trace), id, victims[0]);
      StageTraceSparesOthers(s, shard, now, id, groups[0].envelopes, victims[0], other);
      var t := StageTrace(s, shard, now, id, groups[0].envelopes, victims[0]).tables;
      StageGroupsSparesOthers(t, shard, now, locks, tenant, groups[1..], victims[1..], other);
      SameForIsTransitive(s, t, StageGroups(t, shard, now, tenant, groups[1..], victims[1..]).tables, other);
    }
  }

  // ---------- deciding ----------

  lemma RecordSparesOthers(s: Tables, owner: string, lease: TraceLease, reason: Reason, retained: bool, now: int,
                           other: string)
    requires RecordDecision(s, owner, lease, reason, retained, now).Applied? && other != lease.id.tenant
    ensures SameFor(s, RecordDecision(s, owner, lease, reason, retained, now).tables, other)
  {
  }

  lemma HeldSame(s: Tables, t: Tables, id: TraceKey)
    requires SameBuffers(s, t, id.tenant)
    requires TenantKeyed(s) && Apart(s, id.tenant) && Apart(t, id.tenant)
    ensures BufferedIn(s, id) == BufferedIn(t, id)
    ensures forall k :: k in BufferedIn(s, id) ==>
              && k in t.buffers && s.buffers[k] == t.buffers[k]
              && (k in s.outbox ==> s.outbox[k].tenant == id.tenant)
              && (k in t.outbox ==> t.outbox[k].tenant == id.tenant)
  {
    SameBuffered(s, t, id);
    forall k | k in BufferedIn(s, id)
      ensures (k in s.outbox ==> s.outbox[k].tenant == id.tenant) && (k in t.outbox ==> t.outbox[k].tenant == id.tenant)
    {
      assert OwnKey(k, id.tenant);
    }
  }

  lemma MovedSame(s: Tables, t: Tables, id: TraceKey, now: int)
    requires SameBuffers(s, t, id.tenant) && SameOutbox(s, t, id.tenant)
    requires TenantKeyed(s) && Apart(s, id.tenant) && Apart(t, id.tenant)
    ensures SameMessages(MovedToOutbox(s, id, now), MovedToOutbox(t, id, now), id.tenant)
  {
    hide Apart, TenantKeyed, SameBuffers, BufferedIn, WithOutboxRows, OwnKey;
    HeldSame(s, t, id);
  }

  ghost predicate BothApplied(s: Tables, t: Tables, owner: string, lease: TraceLease, reason: Reason, retained: bool,
                              now: int) {
    && RecordDecision(s, owner, lease, reason, retained, now).Applied?
    && RecordDecision(t, owner, lease, reason, retained, now).Applied?
  }

  lemma OutcomesAgree(s: Tables, t: Tables, owner: string, lease: TraceLease, reason: Reason, retained: bool, now: int)
    requires SameTraces(s, t, lease.id.tenant) && SameDecisions(s, t, lease.id.tenant)
    ensures var a, b := RecordDecision(s, owner, lease, reason, retained, now),
                RecordDecision(t, owner, lease, reason, retained, now);
            BothApplied(s, t, owner, lease, reason, retained, now) || (a == b && !a.Applied?)
  {
    hide MovedToOutbox, WithoutBuffersOf, BufferedIn;
  }

  lemma ClosedTracesSame(s: Tables, t: Tables, owner: string, lease: TraceLease, reason: Reason, retained: bool,
                         now: int)
    requires BothApplied(s, t, owner, lease, reason, retained, now)
    requires BufferedIn(s, lease.id) == BufferedIn(t, lease.id)
    requires SameTraces(s, t, lease.id.tenant)
    ensures SameTraces(RecordDecision(s, owner, lease, reason, retained, now).tables,
                       RecordDecision(t, owner, lease, reason, retained, now).tables, lease.id.tenant)
  {
    hide MovedToOutbox, WithoutBuffersOf, BufferedIn;
  }

  lemma ClosedBuffersSame(s: Tables, t: Tables, owner: string, lease: TraceLease, reason: Reason, retained: bool,
                          now: int)
    requires BothApplied(s, t, owner, lease, reason, retained, now)
    requires SameBuffers(s, t, lease.id.tenant)
    ensures SameBuffers(RecordDecision(s, owner, lease, reason, retained, now).tables,
                        RecordDecision(t, owner, lease, reason, retained, now).tables, lease.id.tenant)
  {
    hide MovedToOutbox;
  }

  lemma ClosedDecisionsSame(s: Tables, t: Tables, owner: string, lease: TraceLease, reason: Reason, retained: bool,
                            now: int)
    requires BothApplied(s, t, owner, lease, reason, retained, now)
    requires BufferedIn(s, lease.id) == BufferedIn(t, lease.id)
    requires SameDecisions(s, t, lease.id.tenant)
    ensures SameDecisions(RecordDecision(s, owner, lease, reason, retained, now).tables,
                          RecordDecision(t, owner, lease, reason, retained, now).tables, lease.id.tenant)
  {
    hide MovedToOutbox, WithoutBuffersOf, BufferedIn;
  }

  lemma RecordSame(s: Tables, t: Tables, owner: string, lease: TraceLease, reason: Reason, retained: bool, now: int)
    requires SameFor(s, t, lease.id.tenant)
    requires TenantKeyed(s) && Apart(s, lease.id.tenant) && Apart(t, lease.id.tenant)
    ensures var a, b := RecordDecision(s, owner, lease, reason, retained, now),
                RecordDecision(t, owner, lease, reason, retained, now);
            if a.Applied? && b.Applied? then SameFor(a.tables, b.tables, lease.id.tenant) else a == b
  {
    hide TenantKeyed, Apart, SameMessages, MovedToOutbox, SameTraces, SameBuffers, SameDecisions, BufferedIn;
    hide StillLeased, Closed;
    OutcomesAgree(s, t, owner, lease, reason, retained, now);
    HeldSame(s, t, lease.id);
    MovedSame(s, t, lease.id, now);
    var a, b := RecordDecision(s, owner, lease, reason, retained, now),
          RecordDecision(t, owner, lease, reason, retained, now);
    if BothApplied(s, t, owner, lease, reason, retained, now) {
      ClosedTracesSame(s, t, owner, lease, reason, retained, now);
      ClosedBuffersSame(s, t, owner, lease, reason, retained, now);
      ClosedDecisionsSame(s, t, owner, lease, reason, retained, now);
      SameKeysOnly(s, a.tables, t, b.tables, lease.id.tenant);
    }
  }

  lemma SameKeysOnly(s: Tables, v: Tables, t: Tables, x: Tables, tenant: string)
    requires SameKeys(s, t, tenant) && v.keys == s.keys && x.keys == t.keys
    ensures SameKeys(v, x, tenant)
  {
  }

  // ---------- the theorems ----------

  ghost predicate Neighbourly(s: Tables, tenant: string) {
    TenantKeyed(s) && Neighbours(s, tenant)
  }

  // One staging, seen from two states that agree on the tenant's rows: the same
  // victims are possible, and the outcome is the same, row by row. No row of
  // another tenant changes.
  lemma StagingDoesNotInterfere(s: Tables, t: Tables, shard: Sharding, now: int, locks: Locks, tenant: string,
                                batch: seq<Envelope>, groups: seq<Group>, victims: seq<Option<TraceKey>>)
    requires |groups| == |victims| && Grouping(batch, groups)
    requires forall e :: e in batch ==> e.tenantId == tenant && OwnKey(e.eventKey, tenant)
    requires LegitVictims(s, shard, now, locks, tenant, groups, victims)
    requires SameFor(s, t, tenant) && Neighbourly(s, tenant) && Neighbourly(t, tenant)
    ensures LegitVictims(t, shard, now, locks, tenant, groups, victims)
    ensures var a, b := StageBatch(s, shard, now, batch, groups, victims),
                StageBatch(t, shard, now, batch, groups, victims);
            && (if a.Accepted? && b.Accepted? then SameFor(a.tables, b.tables, tenant) else a == b)
            && (a.Accepted? ==> forall other :: other != tenant ==> SameFor(s, a.tables, other))
  {
    hide SameFor, Apart, OwnKey, TenantKeyed, Neighbours, StageGroups, LegitVictims;
    SeparateTenantsAreApart(s, tenant);
    SeparateTenantsAreApart(t, tenant);
    forall i | 0 <= i < |groups| ensures OwnKeys(groups[i].envelopes, tenant) {
      OfTraceMembers(batch, groups[i].trace);
    }
    StageGroupsSame(s, t, shard, now, locks, tenant, groups, victims);
    var a := StageBatch(s, shard, now, batch, groups, victims);
    if a.Accepted? {
      forall other | other != tenant ensures SameFor(s, a.tables, other) {
        SameForItself(s, other);
        if batch != [] {
          StageGroupsSparesOthers(s, shard, now, locks, tenant, groups, victims, other);
        }
      }
    }
  }

  // The same of one decision.
  lemma DecidingDoesNotInterfere(s: Tables, t: Tables, owner: string, lease: TraceLease, reason: Reason,
                                 retained: bool, now: int)
    requires SameFor(s, t, lease.id.tenant) && Neighbourly(s, lease.id.tenant) && Neighbourly(t, lease.id.tenant)
    ensures var a, b := RecordDecision(s, owner, lease, reason, retained, now),
                RecordDecision(t, owner, lease, reason, retained, now);
            && (if a.Applied? && b.Applied? then SameFor(a.tables, b.tables, lease.id.tenant) else a == b)
            && (a.Applied? ==> forall other :: other != lease.id.tenant ==> SameFor(s, a.tables, other))
  {
    hide SameFor, Apart, OwnKey, TenantKeyed, Neighbours, RecordDecision;
    SeparateTenantsAreApart(s, lease.id.tenant);
    SeparateTenantsAreApart(t, lease.id.tenant);
    RecordSame(s, t, owner, lease, reason, retained, now);
    var a := RecordDecision(s, owner, lease, reason, retained, now);
    if a.Applied? {
      forall other | other != lease.id.tenant ensures SameFor(s, a.tables, other) {
        RecordSparesOthers(s, owner, lease, reason, retained, now, other);
      }
    }
  }

  // Every reachable table is keyed by tenant, when the gateways key that way.
  lemma ReachableIsTenantKeyed(u: T.Setup, s: P.State)
    requires TailSafety.MadeIsProcessable(u) && P.Reachable(u, s)
    requires forall e :: u.made(e) ==> OwnKey(e.eventKey, e.tenantId)
    ensures TenantKeyed(s.tail.db)
  {
    hide P.Reachable, TailSafety.MadeIsProcessable, OwnKey;
    P.ReachableIsSafe(u, s);
  }

  // Two tenants with a common key do interfere: in an empty store the second
  // one's event is buffered; once the first one has staged an event with the same
  // key, it is acknowledged and stored nowhere.
  lemma CollidingEventIsDropped(shard: Sharding, first: Envelope, second: Envelope)
    requires first.tenantId != "" && second.tenantId != "" && first.tenantId != second.tenantId
    requires first.eventKey == second.eventKey
    ensures var id, groups := TailOwners.HomeOf(second), [Group(TailTraceId(second), [second])];
            var s := TailOwners.OneSpan(first, Free);
            && StageBatch(EMPTY, shard, 0, [first], [Group(TailTraceId(first), [first])], [None]) == Accepted(s)
            && SameFor(s, EMPTY, second.tenantId)
            && LegitVictims(s, shard, 0, NoLocks, second.tenantId, groups, [None])
            && StageBatch(s, shard, 0, [second], groups, [None]).Accepted?
            && BufferedIn(StageBatch(s, shard, 0, [second], groups, [None]).tables, id) == {}
            && StageBatch(EMPTY, shard, 0, [second], groups, [None]).Accepted?
            && BufferedIn(StageBatch(EMPTY, shard, 0, [second], groups, [None]).tables, id) == {second.eventKey}
  {
    hide TailTraceId, StageGroups, LegitVictims, TailOwners.OneSpan, Opened, SameFor;
    TailOwners.StageOneGroup(shard, first, [Group(TailTraceId(first), [first])], [None]);
    TailOwners.StageOneGroup(shard, second, [Group(TailTraceId(second), [second])], [None]);
    KnownKeyIsDropped(shard, first, second);
    OneSpanHolds(second);
    OneSpanIsForeign(first, second.tenantId);
  }

  lemma OneSpanHolds(e: Envelope)
    ensures BufferedIn(TailOwners.OneSpan(e, Free), TailOwners.HomeOf(e)) == {e.eventKey}
  {
    hide TailTraceId;
  }

  lemma OneSpanIsForeign(e: Envelope, other: string)
    requires other != e.tenantId
    ensures SameFor(TailOwners.OneSpan(e, Free), EMPTY, other)
  {
    hide TailTraceId;
  }

  lemma KnownKeyIsDropped(shard: Sharding, first: Envelope, second: Envelope)
    requires first.tenantId != second.tenantId && first.eventKey == second.eventKey
    ensures var id, groups := TailOwners.HomeOf(second), [Group(TailTraceId(second), [second])];
            var s := TailOwners.OneSpan(first, Free);
            && StageGroups(s, shard, 0, second.tenantId, groups, [None]) == Accepted(Opened(s, 0, id))
            && LegitVictims(s, shard, 0, NoLocks, second.tenantId, groups, [None])
            && BufferedIn(Opened(s, 0, id), id) == {}
  {
    hide TailTraceId;
    var id, s := TailOwners.HomeOf(second), TailOwners.OneSpan(first, Free);
    assert ActiveInShard(s, shard, id.tenant, shard(id.trace)) == {};
    var t := Opened(s, 0, id);
    assert FreshEnvelopes(t.keys, [second]) == [] by {
      assert FreshEnvelopes(t.keys, [second][1..]) == [];
    }
    assert StageTrace(s, shard, 0, id, [second], None) == Accepted(t);
    var groups, victims: seq<Option<TraceKey>> := [Group(TailTraceId(second), [second])], [None];
    assert groups[1..] == [] && victims[1..] == [];
  }

  // ---------- the exact condition ----------

  ghost predicate OnlyOf(s: Tables, a: string, b: string) {
    && (forall k :: k in s.keys ==> s.keys[k].home.tenant in [a, b])
    && (forall k :: k in s.buffers ==> s.buffers[k].home.tenant in [a, b])
    && (forall k :: k in s.outbox ==> s.outbox[k].tenant in [a, b])
  }

  ghost predicate Stageable(s: Tables, shard: Sharding, now: int, locks: Locks, tenant: string, batch: seq<Envelope>,
                            groups: seq<Group>, victims: seq<Option<TraceKey>>) {
    && |groups| == |victims| && Grouping(batch, groups)
    && (forall e :: e in batch ==> e.tenantId == tenant && OwnKey(e.eventKey, tenant))
    && (tenant != "" ==> LegitVictims(s, shard, now, locks, tenant, groups, victims))
  }

  // Two states with rows of `a` and `b` only that agree on those of `a`.
  ghost predicate Comparable(s: Tables, t: Tables, a: string, b: string) {
    TenantKeyed(s) && TenantKeyed(t) && OnlyOf(s, a, b) && OnlyOf(t, a, b) && SameFor(s, t, a)
  }

  ghost predicate Undisturbed(s: Tables, t: Tables, shard: Sharding, now: int, locks: Locks, tenant: string,
                              batch: seq<Envelope>, groups: seq<Group>, victims: seq<Option<TraceKey>>) {
    Stageable(s, shard, now, locks, tenant, batch, groups, victims) ==>
      && Stageable(t, shard, now, locks, tenant, batch, groups, victims)
      && SameStaging(StageBatch(s, shard, now, batch, groups, victims),
                     StageBatch(t, shard, now, batch, groups, victims), tenant)
  }

  // Where only `a` and `b` have rows, staging a batch of `a` has the possible
  // victims and the outcome that the rows of `a` determine.
  ghost predicate Independent(shard: Sharding, a: string, b: string) {
    forall s: Tables, t: Tables, now: int, locks: Locks, batch: seq<Envelope>, groups: seq<Group>,
           victims: seq<Option<TraceKey>> ::
      Comparable(s, t, a, b) ==> Undisturbed(s, t, shard, now, locks, a, batch, groups, victims)
  }

  ghost predicate SameStaging(a: Staged, b: Staged, tenant: string) {
    if a.Accepted? && b.Accepted? then SameFor(a.tables, b.tables, tenant) else a == b
  }

  lemma OnlyNeighbours(s: Tables, a: string, b: string)
    requires TenantKeyed(s) && OnlyOf(s, a, b) && Separate(a, b)
    ensures Neighbourly(s, a)
  {
    hide Separate, OwnKey;
  }

  lemma SeparateIsIndependent(shard: Sharding, a: string, b: string)
    requires a != "" && Separate(a, b)
    ensures Independent(shard, a, b)
  {
    hide SameFor, OwnKey, TenantKeyed, Neighbourly, OnlyOf, StageBatch, LegitVictims, Grouping, Separate;
    forall s: Tables, t: Tables, now: int, locks: Locks, batch: seq<Envelope>, groups: seq<Group>,
           victims: seq<Option<TraceKey>>
      | Comparable(s, t, a, b)
      ensures Undisturbed(s, t, shard, now, locks, a, batch, groups, victims)
    {
      OnlyNeighbours(s, a, b);
      OnlyNeighbours(t, a, b);
      if Stageable(s, shard, now, locks, a, batch, groups, victims) {
        StagingDoesNotInterfere(s, t, shard, now, locks, a, batch, groups, victims);
      }
    }
  }

  // A batch that names no tenant is refused, so nothing depends on anything.
  lemma NamelessIsIndependent(shard: Sharding, b: string)
    ensures Independent(shard, "", b)
  {
    hide OwnKey, TenantKeyed, Grouping, StageGroups, OnlyOf, SameFor, LegitVictims;
    forall s: Tables, t: Tables, now: int, locks: Locks, batch: seq<Envelope>, groups: seq<Group>,
           victims: seq<Option<TraceKey>>
      | Comparable(s, t, "", b)
      ensures Undisturbed(s, t, shard, now, locks, "", batch, groups, victims)
    {
    }
  }

  lemma OneSpanIsKeyed(e: Envelope, other: string)
    requires OwnKey(e.eventKey, e.tenantId)
    ensures TenantKeyed(TailOwners.OneSpan(e, Free)) && OnlyOf(TailOwners.OneSpan(e, Free), other, e.tenantId)
  {
    hide OwnKey, TailTraceId;
  }

  lemma OneSpanDiffers(first: Envelope, second: Envelope, t: Tables)
    requires first.tenantId != second.tenantId && first.eventKey == second.eventKey
    requires t.buffers == TailOwners.OneSpan(first, Free).buffers
    ensures !SameFor(t, TailOwners.OneSpan(second, Free), second.tenantId)
  {
    hide TailTraceId, SameTraces, SameKeys, SameDecisions, SameOutbox;
    assert second.eventKey in TailOwners.OneSpan(second, Free).buffers;
  }

  lemma StageOneEvent(s: Tables, shard: Sharding, e: Envelope, groups: seq<Group>)
    requires e.tenantId != "" && |groups| == 1
    ensures StageBatch(s, shard, 0, [e], groups, [None]) == StageGroups(s, shard, 0, e.tenantId, groups, [None])
  {
    hide StageGroups;
  }

  lemma CollidingStagingDiffers(shard: Sharding, first: Envelope, second: Envelope)
    requires first.tenantId != second.tenantId && first.eventKey == second.eventKey && second.tenantId != ""
    requires OwnKey(second.eventKey, second.tenantId)
    ensures var s, groups := TailOwners.OneSpan(first, Free), [Group(TailTraceId(second), [second])];
            !Undisturbed(s, EMPTY, shard, 0, NoLocks, second.tenantId, [second], groups, [None])
  {
    var s, groups := TailOwners.OneSpan(first, Free), [Group(TailTraceId(second), [second])];
    var t := Opened(s, 0, TailOwners.HomeOf(second));
    assert t.buffers == s.buffers;
    hide TailTraceId, OwnKey, StageGroups, StageBatch, LegitVictims, TailOwners.OneSpan, SameFor, Grouping, Opened;
    hide BufferedIn;
    TailOwners.GroupingOfOne(second);
    KnownKeyIsDropped(shard, first, second);
    TailOwners.StageOneGroup(shard, second, groups, [None]);
    StageOneEvent(s, shard, second, groups);
    StageOneEvent(EMPTY, shard, second, groups);
    OneSpanDiffers(first, second, t);
  }

  lemma CollidingEvents(a: string, b: string) returns (first: Envelope, second: Envelope)
    requires a != b && !Separate(a, b)
    ensures first.tenantId == b && second.tenantId == a && first.eventKey == second.eventKey
    ensures OwnKey(first.eventKey, b) && OwnKey(second.eventKey, a)
  {
    KeysCollideExactly(a, b);
    var x, y :| KeyOf(a, x) == KeyOf(b, y);
    KeyOfIsOwn(a, x);
    KeyOfIsOwn(b, y);
    second := Envelope(2, a, Event(x, "log", "t", "", "", "", map[]), Receipt("", []), KeyOf(a, x));
    first := second.(tenantId := b);
  }

  lemma CollidingIsComparable(a: string, b: string, first: Envelope)
    requires a != b && first.tenantId == b && OwnKey(first.eventKey, b)
    ensures Comparable(TailOwners.OneSpan(first, Free), EMPTY, a, b)
  {
    hide OwnKey, TailOwners.OneSpan, SameFor, TenantKeyed, OnlyOf;
    OneSpanIsKeyed(first, a);
    NothingIsKeyed(a, b);
    OneSpanIsForeign(first, a);
  }

  lemma ContinuedIsDependent(shard: Sharding, a: string, b: string)
    requires a != b && a != "" && !Separate(a, b)
    ensures !Independent(shard, a, b)
  {
    var first, second := CollidingEvents(a, b);
    hide OwnKey, TailOwners.OneSpan, Comparable, Separate, Undisturbed;
    CollidingIsComparable(a, b, first);
    CollidingStagingDiffers(shard, first, second);
  }

  lemma NothingIsKeyed(a: string, b: string)
    ensures TenantKeyed(EMPTY) && OnlyOf(EMPTY, a, b)
  {
  }

  // A tenant's staging is independent of another tenant's rows if and only if
  // neither identifier continues the other with a colon (or there is no tenant).
  lemma IndependentExactly(shard: Sharding, a: string, b: string)
    requires a != b
    ensures Independent(shard, a, b) <==> a == "" || Separate(a, b)
  {
    hide Independent, Separate;
    if a == "" {
      NamelessIsIndependent(shard, b);
    } else if Separate(a, b) {
      SeparateIsIndependent(shard, a, b);
    } else {
      ContinuedIsDependent(shard, a, b);
    }
  }

  // ---------- the same for decisions ----------

  ghost predicate SameDecision(a: Recorded, b: Recorded, tenant: string) {
    if a.Applied? && b.Applied? then SameFor(a.tables, b.tables, tenant) else a == b
  }

  ghost predicate UndisturbedDecision(s: Tables, t: Tables, owner: string, lease: TraceLease, reason: Reason,
                                      retained: bool, now: int) {
    SameDecision(RecordDecision(s, owner, lease, reason, retained, now),
                 RecordDecision(t, owner, lease, reason, retained, now), lease.id.tenant)
  }

  // Where only `a` and `b` have rows, a decision on a trace of `a` has the outcome
  // that the rows of `a` determine.
  ghost predicate IndependentDecision(a: string, b: string) {
    forall s: Tables, t: Tables, owner: string, lease: TraceLease, reason: Reason, retained: bool, now: int ::
      Comparable(s, t, a, b) && lease.id.tenant == a ==> UndisturbedDecision(s, t, owner, lease, reason, retained, now)
  }

  lemma SeparateDecidesIndependently(a: string, b: string)
    requires Separate(a, b)
    ensures IndependentDecision(a, b)
  {
    hide SameFor, OwnKey, TenantKeyed, Neighbourly, OnlyOf, RecordDecision, Separate;
    forall s: Tables, t: Tables, owner: string, lease: TraceLease, reason: Reason, retained: bool, now: int
      | Comparable(s, t, a, b) && lease.id.tenant == a
      ensures UndisturbedDecision(s, t, owner, lease, reason, retained, now)
    {
      OnlyNeighbours(s, a, b);
      OnlyNeighbours(t, a, b);
      DecidingDoesNotInterfere(s, t, owner, lease, reason, retained, now);
    }
  }

  // One leased trace with one buffered span, and what else the outbox holds.
  function Leased(e: Envelope, outbox: map<string, OutboxRow>): Tables {
    TailOwners.OneSpan(e, Held("", 0)).(outbox := outbox)
  }

  function MessageOf(e: Envelope): OutboxRow {
    OutboxRow(e.tenantId, e, 0, Free, None, 0)
  }

  // The insert into the outbox keeps the row that is there, so the message of the
  // decided trace is neither buffered nor outgoing any more.
  lemma TakenKeyLosesMessage(first: Envelope, second: Envelope)
    requires first.tenantId != second.tenantId && first.eventKey == second.eventKey
    ensures var lease, k := TraceLease(TailOwners.HomeOf(second), 2), second.eventKey;
            var r := RecordDecision(Leased(second, map[k := MessageOf(first)]), "", lease, RetainedError, true, 0);
            var clear := RecordDecision(Leased(second, map[]), "", lease, RetainedError, true, 0);
            && r.Applied? && r.tables.buffers == map[] && r.tables.outbox == map[k := MessageOf(first)]
            && clear.Applied? && clear.tables.buffers == map[] && clear.tables.outbox == map[k := MessageOf(second)]
  {
    hide TailTraceId;
    var k, id := second.eventKey, TailOwners.HomeOf(second);
    var s, t := Leased(second, map[k := MessageOf(first)]), Leased(second, map[]);
    assert BufferedIn(s, id) == {k} && BufferedIn(t, id) == {k};
    assert WithoutBuffersOf(s, id) == map[] && WithoutBuffersOf(t, id) == map[];
    assert MovedToOutbox(s, id, 0) == map[k := MessageOf(first)];
    assert MovedToOutbox(t, id, 0) == map[k := MessageOf(second)];
  }

  lemma LeasedIsComparable(a: string, b: string, first: Envelope, second: Envelope)
    requires first.tenantId == b && second.tenantId == a && a != b && first.eventKey == second.eventKey
    requires OwnKey(first.eventKey, b) && OwnKey(second.eventKey, a)
    ensures Comparable(Leased(second, map[second.eventKey := MessageOf(first)]), Leased(second, map[]), a, b)
  {
    hide OwnKey, TailTraceId;
  }

  lemma DifferentMessages(s: Tables, t: Tables, first: Envelope, second: Envelope, k: string)
    requires first.tenantId != second.tenantId
    requires s.outbox == map[k := MessageOf(first)] && t.outbox == map[k := MessageOf(second)]
    ensures !SameFor(s, t, second.tenantId)
  {
    hide SameTraces, SameBuffers, SameKeys, SameDecisions;
    assert k in t.outbox;
  }

  lemma ContinuedDecidesDependently(a: string, b: string)
    requires a != b && !Separate(a, b)
    ensures !IndependentDecision(a, b)
  {
    hide Comparable, Separate, OwnKey, SameFor, RecordDecision, TailTraceId, Leased;
    var first, second := CollidingEvents(a, b);
    LeasedIsComparable(a, b, first, second);
    TakenKeyLosesMessage(first, second);
    var lease, k := TraceLease(TailOwners.HomeOf(second), 2), second.eventKey;
    var s, t := Leased(second, map[k := MessageOf(first)]), Leased(second, map[]);
    DifferentMessages(RecordDecision(s, "", lease, RetainedError, true, 0).tables,
                      RecordDecision(t, "", lease, RetainedError, true, 0).tables, first, second, k);
    assert !UndisturbedDecision(s, t, "", lease, RetainedError, true, 0);
  }

  // Decisions depend on another tenant's rows exactly where staging does.
  lemma DecisionIndependentExactly(a: string, b: string)
    requires a != b
    ensures IndependentDecision(a, b) <==> Separate(a, b)
  {
    hide IndependentDecision, Separate;
    if Separate(a, b) {
      SeparateDecidesIndependently(a, b);
    } else {
      ContinuedDecidesDependently(a, b);
    }
  }
}
