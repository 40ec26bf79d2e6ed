// What staging a batch can do to the rows that were there before: the relation
// below composes over the traces of a batch.
module TailEffects {
  import opened Telemetry
  import opened Sampling
  import opened TailTables
  import opened TailInvariants
  import opened TailMachine

  predicate SameBuffer(s: Tables, t: Tables, id: TraceKey) {
    && BufferedIn(s, id) == BufferedIn(t, id)
    && forall k :: k in BufferedIn(s, id) ==> t.buffers[k] == s.buffers[k]
  }

  predicate BufferedAt(s: Tables, k: string, id: TraceKey) {
    k in s.buffers && s.buffers[k].home == id
  }

  // Registered keys and decision rows stay; the outbox is not touched.
  ghost predicate Grows(s: Tables, t: Tables) {
    && (forall k :: k in s.keys ==> k in t.keys && t.keys[k] == s.keys[k])
    && (forall id :: id in s.decisions ==> id in t.decisions && t.decisions[id] == s.decisions[id])
    && t.outbox == s.outbox
  }

  // A buffered or newly registered key is buffered, or evidence says why not.
  ghost predicate NothingVanishes(s: Tables, t: Tables) {
    && (forall k :: k in s.buffers ==>
          BufferedAt(t, k, s.buffers[k].home) || DecidedAgainst(t, s.buffers[k].home))
    && (forall k :: k in t.keys && k !in s.keys ==>
          BufferedAt(t, k, t.keys[k].home) || DecidedAgainst(t, t.keys[k].home))
  }

  // The generation fence: an undecided trace whose generation did not move has
  // the buffer it had.
  ghost predicate Fenced(s: Tables, t: Tables) {
    forall id :: id in t.traces && id in s.traces ==>
      && s.traces[id].generation <= t.traces[id].generation
      && (Active(t, id) ==> Active(s, id))
      && (Active(t, id) && t.traces[id].generation == s.traces[id].generation ==> SameBuffer(s, t, id))
  }

  // A lease seen afterwards was there before.
  ghost predicate LeasesInherited(s: Tables, t: Tables) {
    forall id :: id in t.traces && t.traces[id].lease.Held? ==>
        id in s.traces && s.traces[id].lease == t.traces[id].lease
  }

  ghost predicate StageEffect(s: Tables, t: Tables) {
    && s.traces.Keys <= t.traces.Keys
    && Grows(s, t) && NothingVanishes(s, t) && Fenced(s, t) && LeasesInherited(s, t)
  }

  lemma NothingVanishesTwice(s: Tables, t: Tables, v: Tables)
    requires Grows(s, t) && Grows(t, v) && NothingVanishes(s, t) && NothingVanishes(t, v)
    ensures NothingVanishes(s, v)
  {
    forall k | k in v.keys && k !in s.keys
      ensures BufferedAt(v, k, v.keys[k].home) || DecidedAgainst(v, v.keys[k].home)
    {
      if k in t.keys {
        assert BufferedAt(t, k, t.keys[k].home) || DecidedAgainst(t, t.keys[k].home);
      }
    }
  }

  lemma FencedTwice(s: Tables, t: Tables, v: Tables)
    requires s.traces.Keys <= t.traces.Keys <= v.traces.Keys
    requires Fenced(s, t) && Fenced(t, v)
    ensures Fenced(s, v)
  {
    forall id | id in v.traces && id in t.traces && id in s.traces
      && Active(v, id) && v.traces[id].generation == s.traces[id].generation
      ensures SameBuffer(s, v, id)
    {
      assert SameBuffer(s, t, id) && SameBuffer(t, v, id);
    }
  }

  lemma EffectTwice(s: Tables, t: Tables, v: Tables)
    requires StageEffect(s, t) && StageEffect(t, v)
    ensures StageEffect(s, v)
  {
    NothingVanishesTwice(s, t, v);
    FencedTwice(s, t, v);
  }

  lemma NoEffect(s: Tables)
    requires forall k :: k in s.buffers ==> BufferedAt(s, k, s.buffers[k].home)
    ensures StageEffect(s, s)
  {
  }

  lemma EvictEffect(s: Tables, id: TraceKey, now: int)
    requires DecisionsAgree(s) && Active(s, id)
    ensures StageEffect(s, Evict(s, id, EvictedPressure, now))
  {
    var t := Evict(s, id, EvictedPressure, now);
    forall other | other in t.traces && Active(t, other) ensures SameBuffer(s, t, other) {}
  }

  lemma OpenEffect(s: Tables, now: int, id: TraceKey)
    requires id !in s.traces
    ensures StageEffect(s, Opened(s, now, id))
  {
  }

  lemma RegisterEffect(s: Tables, now: int, id: TraceKey, added: map<string, Envelope>)
    requires Registrable(s, id, added)
    ensures StageEffect(s, Registered(s, now, id, added))
  {
    var t := Registered(s, now, id, added);
    forall other | other in t.traces && other != id ensures SameBuffer(s, t, other) {}
  }

  lemma AddSpansEffect(s: Tables, now: int, id: TraceKey, es: seq<Envelope>)
    requires Active(s, id) && ForTrace(es, id) && AddSpans(s, now, id, es).Accepted?
    ensures StageEffect(s, AddSpans(s, now, id, es).tables)
  {
    AddSpansRegisters(s, now, id, es);
    var added := Index(FreshEnvelopes(s.keys, es));
    if |added| > 0 {
      RegisterEffect(s, now, id, added);
    } else {
      NoEffect(s);
    }
  }

  lemma AdmitEffect(s: Tables, shard: Sharding, now: int, locked: set<TraceKey>, id: TraceKey, victim: Option<TraceKey>)
    requires DecisionsAgree(s) && id !in s.traces && LegitVictim(s, shard, locked, id, victim)
    requires Admit(s, shard, now, id, victim).Accepted?
    ensures StageEffect(s, Admit(s, shard, now, id, victim).tables)
  {
    if HasRoom(s, shard, id) {
      OpenEffect(s, now, id);
    } else {
      EvictEffect(s, victim.value, now);
      var room := Evict(s, victim.value, EvictedPressure, now);
      OpenEffect(room, now, id);
      EffectTwice(s, room, Opened(room, now, id));
    }
  }

  lemma StageTraceEffect(s: Tables, shard: Sharding, config: Config, now: int, locked: set<TraceKey>,
                         id: TraceKey, es: seq<Envelope>, victim: Option<TraceKey>)
    requires Sound(s, shard) && ForTrace(es, id) && LegitVictim(s, shard, locked, id, victim)
    requires StageTrace(s, shard, now, id, es, victim).Accepted?
    ensures StageEffect(s, StageTrace(s, shard, now, id, es, victim).tables)
  {
    if id !in s.traces {
      AdmitEffect(s, shard, now, locked, id, victim);
      AdmitKeeps(s, shard, config, now, locked, id, victim);
      var t := Admit(s, shard, now, id, victim).tables;
      AddSpansEffect(t, now, id, es);
      EffectTwice(s, t, AddSpans(t, now, id, es).tables);
    } else if Active(s, id) {
      AddSpansEffect(s, now, id, es);
    } else {
      NoEffect(s);
    }
  }

  lemma {:induction false} StageGroupsEffect(s: Tables, shard: Sharding, config: Config, now: int,
                                             locks: Locks,
                                             tenant: string, groups: seq<Group>, victims: seq<Option<TraceKey>>)
    requires |groups| == |victims|
    requires Sound(s, shard) && LegitVictims(s, shard, now, locks, tenant, groups, victims)
    requires forall i :: 0 <= i < |groups| ==> ForTrace(groups[i].envelopes, TraceKey(tenant, groups[i].trace))
    requires StageGroups(s, shard, now, tenant, groups, victims).Accepted?
    ensures StageEffect(s, StageGroups(s, shard, now, tenant, groups, victims).tables)
    decreases |groups|
  {
    if groups == [] {
      NoEffect(s);
    } else {
      var id := TraceKey(tenant, groups[0].trace);
      StageTraceEffect(s, shard, config, now, locks(groups[0].trace), id, groups[0].envelopes, victims[0]);
      StageTraceKeeps(s, shard, config, now, locks(groups[0].trace), id, groups[0].envelopes, victims[0]);
      var t := StageTrace(s, shard, now, id, groups[0].envelopes, victims[0]).tables;
      StageGroupsEffect(t, shard, config, now, locks, tenant, groups[1..], victims[1..]);
      EffectTwice(s, t, StageGroups(s, shard, now, tenant, groups, victims).tables);
    }
  }

  lemma StageBatchEffect(s: Tables, shard: Sharding, config: Config, now: int, locks: Locks,
                         batch: seq<Envelope>, groups: seq<Group>, victims: seq<Option<TraceKey>>)
    requires |groups| == |victims| && Grouping(batch, groups) && Sound(s, shard)
    requires batch != [] ==> LegitVictims(s, shard, now, locks, batch[0].tenantId, groups, victims)
    requires StageBatch(s, shard, now, batch, groups, victims).Accepted?
    ensures StageEffect(s, StageBatch(s, shard, now, batch, groups, victims).tables)
  {
    if batch == [] {
      NoEffect(s);
    } else {
      GroupsAreOfOneTenant(batch, groups, batch[0].tenantId);
      StageGroupsEffect(s, shard, config, now, locks, batch[0].tenantId, groups, victims);
    }
  }

  // ---------- keys that are known already ----------

  // No row beyond those of before, and no key.
  ghost predicate StoresNothing(s: Tables, t: Tables) {
    && t.keys == s.keys && t.outbox == s.outbox
    && forall k :: k in t.buffers ==> k in s.buffers && t.buffers[k] == s.buffers[k]
  }

  lemma KnownTraceStoresNothing(s: Tables, shard: Sharding, now: int, id: TraceKey, es: seq<Envelope>,
                                victim: Option<TraceKey>)
    requires forall e :: e in es ==> e.eventKey in s.keys
    requires StageTrace(s, shard, now, id, es, victim).Accepted?
    ensures StoresNothing(s, StageTrace(s, shard, now, id, es, victim).tables)
  {
    hide HasRoom;
    KnownIsNotFresh(s.keys, es);
  }

  lemma {:induction false} KnownGroupsStoreNothing(s: Tables, shard: Sharding, now: int, tenant: string,
                                                   groups: seq<Group>, victims: seq<Option<TraceKey>>)
    requires |groups| == |victims|
    requires forall g :: g in groups ==> forall e :: e in g.envelopes ==> e.eventKey in s.keys
    requires StageGroups(s, shard, now, tenant, groups, victims).Accepted?
    ensures StoresNothing(s, StageGroups(s, shard, now, tenant, groups, victims).tables)
    decreases |groups|
  {
    hide StageTrace;
    if groups != [] {
      var id := TraceKey(tenant, groups[0].trace);
      KnownTraceStoresNothing(s, shard, now, id, groups[0].envelopes, victims[0]);
      var t := StageTrace(s, shard, now, id, groups[0].envelopes, victims[0]).tables;
      KnownGroupsStoreNothing(t, shard, now, tenant, groups[1..], victims[1..]);
    }
  }

  // A batch whose keys are all registered may be acknowledged, but nothing of it is
  // stored, whatever it contains: the key alone stands for the event.
  lemma KnownBatchStoresNothing(s: Tables, shard: Sharding, now: int, batch: seq<Envelope>, groups: seq<Group>,
                                victims: seq<Option<TraceKey>>)
    requires |groups| == |victims| && Grouping(batch, groups)
    requires forall e :: e in batch ==> e.eventKey in s.keys
    requires StageBatch(s, shard, now, batch, groups, victims).Accepted?
    ensures StoresNothing(s, StageBatch(s, shard, now, batch, groups, victims).tables)
  {
    hide StageGroups, TracesOf;
    forall g, e | g in groups && e in g.envelopes ensures e.eventKey in s.keys {
      var i :| 0 <= i < |groups| && groups[i] == g;
      OfTraceMembers(batch, g.trace);
    }
    if batch != [] {
      KnownGroupsStoreNothing(s, shard, now, batch[0].tenantId, groups, victims);
    }
  }
}
