// The transactions of internal/metadata/tail.go, row by row: what each one reads,
// changes and leaves, in the columns of the tables. The functions of TailTables
// say how the rows are computed; these lemmas say which rows they are.
module TailLaws {
  import opened Telemetry
  import opened Sampling
  import opened TailTables
  import opened TailInvariants

  // ---------- staging ----------

  // A trace was first seen when its row was written, and keeps that time.
  ghost predicate TraceTimes(s: Tables, t: Tables, now: int) {
    && (forall id :: id in s.traces ==>
          && id in t.traces && t.traces[id].firstSeen == s.traces[id].firstSeen
          && (t.traces[id].lastSeen == s.traces[id].lastSeen || t.traces[id].lastSeen == now)
          && (s.traces[id].status.Decided? ==> t.traces[id] == s.traces[id])
          && (s.traces[id].status.Undecided? && t.traces[id].status.Decided? ==>
                t.traces[id].status == Decided(EvictedPressure, now) && t.traces[id].lease == Free))
    && (forall id :: id in t.traces && id !in s.traces ==>
          && t.traces[id].firstSeen == now && t.traces[id].lastSeen == now
          && (t.traces[id].status == Undecided || t.traces[id].status == Decided(EvictedPressure, now)))
  }

  // The envelope is one of the batch, under its own key and in its own trace.
  predicate Belongs(k: string, home: TraceKey, e: Envelope, tenant: string, batch: seq<Envelope>) {
    && e in batch && e.eventKey == k && home.tenant == tenant
    && home.trace == if e.event.traceId != "" then e.event.traceId else "unlinked-log:" + e.event.eventId
  }

  ghost predicate KeyRows(s: Tables, t: Tables, now: int, tenant: string, batch: seq<Envelope>) {
    && (forall k :: k in s.keys ==> k in t.keys && t.keys[k] == s.keys[k])
    && (forall k :: k in t.keys && k !in s.keys ==>
          t.keys[k].createdAt == now && Belongs(k, t.keys[k].home, t.keys[k].origin, tenant, batch))
  }

  ghost predicate NewBuffer(s: Tables, t: Tables, now: int, tenant: string, batch: seq<Envelope>, k: string)
    requires k in t.buffers
  {
    var row := t.buffers[k];
    && row.receivedAt == now && k !in s.keys && k in t.keys && t.keys[k].home == row.home
    && Belongs(k, row.home, row.envelope, tenant, batch)
    && row.home in t.traces && t.traces[row.home].lastSeen == now
  }

  // A buffer row is an old one, or one of a key that is new, in a trace seen now.
  ghost predicate BufferRows(s: Tables, t: Tables, now: int, tenant: string, batch: seq<Envelope>) {
    forall k :: k in t.buffers ==>
      (k in s.buffers && t.buffers[k] == s.buffers[k]) || NewBuffer(s, t, now, tenant, batch, k)
  }

  ghost predicate OtherRows(s: Tables, t: Tables, now: int) {
    && t.outbox == s.outbox
    && (forall id :: id in s.decisions ==> id in t.decisions && t.decisions[id] == s.decisions[id])
    && (forall id :: id in t.decisions && id !in s.decisions ==>
          t.decisions[id].reason == EvictedPressure && !t.decisions[id].retained && t.decisions[id].createdAt == now)
  }

  ghost predicate StagedRows(s: Tables, t: Tables, now: int, tenant: string, batch: seq<Envelope>) {
    && TraceTimes(s, t, now) && KeyRows(s, t, now, tenant, batch)
    && BufferRows(s, t, now, tenant, batch) && OtherRows(s, t, now)
  }

  lemma TimesTwice(s: Tables, t: Tables, v: Tables, now: int)
    requires TraceTimes(s, t, now) && TraceTimes(t, v, now)
    ensures TraceTimes(s, v, now)
  {
  }

  lemma RowsTwice(s: Tables, t: Tables, v: Tables, now: int, tenant: string, batch: seq<Envelope>)
    requires StagedRows(s, t, now, tenant, batch) && StagedRows(t, v, now, tenant, batch)
    ensures BufferRows(s, v, now, tenant, batch)
  {
    hide Belongs;
    forall k | k in v.buffers
      ensures (k in s.buffers && v.buffers[k] == s.buffers[k]) || NewBuffer(s, v, now, tenant, batch, k)
    {
      if !NewBuffer(t, v, now, tenant, batch, k) {
        assert k in t.buffers && v.buffers[k] == t.buffers[k];
      }
    }
  }

  lemma StagedTwice(s: Tables, t: Tables, v: Tables, now: int, tenant: string, batch: seq<Envelope>)
    requires StagedRows(s, t, now, tenant, batch) && StagedRows(t, v, now, tenant, batch)
    ensures StagedRows(s, v, now, tenant, batch)
  {
    RowsTwice(s, t, v, now, tenant, batch);
    TimesTwice(s, t, v, now);
    hide Belongs, BufferRows, TraceTimes;
  }

  lemma StagedOnce(s: Tables, now: int, tenant: string, batch: seq<Envelope>)
    ensures StagedRows(s, s, now, tenant, batch)
  {
  }

  lemma EvictedRows(s: Tables, id: TraceKey, now: int, tenant: string, batch: seq<Envelope>)
    requires id in s.traces
    ensures StagedRows(s, Evict(s, id, EvictedPressure, now), now, tenant, batch)
  {
    hide Belongs;
  }

  lemma OpenedRows(s: Tables, id: TraceKey, now: int, tenant: string, batch: seq<Envelope>)
    requires id !in s.traces
    ensures StagedRows(s, Opened(s, now, id), now, tenant, batch)
  {
    hide Belongs;
  }

  ghost predicate Adding(s: Tables, id: TraceKey, added: map<string, Envelope>, batch: seq<Envelope>) {
    Active(s, id) && forall k :: k in added ==> k !in s.keys && Belongs(k, id, added[k], id.tenant, batch)
  }

  lemma RegisteredKeyRows(s: Tables, now: int, id: TraceKey, added: map<string, Envelope>, batch: seq<Envelope>)
    requires Adding(s, id, added, batch)
    ensures KeyRows(s, Registered(s, now, id, added), now, id.tenant, batch)
  {
    hide Belongs;
  }

  lemma RegisteredBufferRows(s: Tables, now: int, id: TraceKey, added: map<string, Envelope>, batch: seq<Envelope>)
    requires Adding(s, id, added, batch)
    ensures BufferRows(s, Registered(s, now, id, added), now, id.tenant, batch)
  {
    hide Belongs;
    var t := Registered(s, now, id, added);
    forall k | k in t.buffers
      ensures (k in s.buffers && t.buffers[k] == s.buffers[k]) || NewBuffer(s, t, now, id.tenant, batch, k)
    {
      if k in added {
        assert t.buffers[k] == BufferRow(id, added[k], now) && t.keys[k] == KeyRow(id, now, added[k]);
      }
    }
  }

  lemma RegisteredTimes(s: Tables, now: int, id: TraceKey, added: map<string, Envelope>)
    requires Active(s, id)
    ensures TraceTimes(s, Registered(s, now, id, added), now) && OtherRows(s, Registered(s, now, id, added), now)
  {
    hide WithKeyRows, WithBufferRows;
  }

  lemma FreshAdds(s: Tables, id: TraceKey, es: seq<Envelope>, batch: seq<Envelope>)
    requires Active(s, id) && forall e :: e in es ==> Belongs(e.eventKey, id, e, id.tenant, batch)
    ensures Adding(s, id, Index(FreshEnvelopes(s.keys, es)), batch)
  {
    hide Belongs;
    FreshEnvelopesAreNew(s.keys, es);
    var added := FreshEnvelopes(s.keys, es);
    forall k | k in Index(added) ensures k !in s.keys && Belongs(k, id, Index(added)[k], id.tenant, batch) {
      assert Index(added)[k] in added;
    }
  }

  lemma AddedRows(s: Tables, now: int, id: TraceKey, es: seq<Envelope>, batch: seq<Envelope>)
    requires Active(s, id) && AddSpans(s, now, id, es).Accepted?
    requires forall e :: e in es ==> Belongs(e.eventKey, id, e, id.tenant, batch)
    ensures StagedRows(s, AddSpans(s, now, id, es).tables, now, id.tenant, batch)
  {
    hide Belongs, FreshEnvelopes, Index, KeysOf, Insertable, Registered, Adding;
    hide TraceTimes, KeyRows, BufferRows, OtherRows;
    FreshAdds(s, id, es, batch);
    StagedOnceParts(s, now, id.tenant, batch);
    var added := Index(FreshEnvelopes(s.keys, es));
    RegisteredKeyRows(s, now, id, added, batch);
    RegisteredBufferRows(s, now, id, added, batch);
    RegisteredTimes(s, now, id, added);
  }

  lemma StagedOnceParts(s: Tables, now: int, tenant: string, batch: seq<Envelope>)
    ensures TraceTimes(s, s, now) && KeyRows(s, s, now, tenant, batch) && BufferRows(s, s, now, tenant, batch)
    ensures OtherRows(s, s, now)
  {
  }

  lemma StageTraceRows(s: Tables, shard: Sharding, now: int, id: TraceKey, es: seq<Envelope>,
                       victim: Option<TraceKey>, batch: seq<Envelope>)
    requires StageTrace(s, shard, now, id, es, victim).Accepted?
    requires forall e :: e in es ==> Belongs(e.eventKey, id, e, id.tenant, batch)
    requires victim.Some? ==> victim.value != id
    ensures StagedRows(s, StageTrace(s, shard, now, id, es, victim).tables, now, id.tenant, batch)
  {
    hide Belongs, AddSpans, HasRoom, StagedRows, Evict, Opened;
    if id !in s.traces {
      OpenedIsActive(s, id, now);
      if HasRoom(s, shard, id) {
        OpenedRows(s, id, now, id.tenant, batch);
        AddedRows(Opened(s, now, id), now, id, es, batch);
        StagedTwice(s, Opened(s, now, id), AddSpans(Opened(s, now, id), now, id, es).tables, now, id.tenant, batch);
      } else {
        var room := Evict(s, victim.value, EvictedPressure, now);
        var open := Opened(room, now, id);
        EvictKeepsTraces(s, victim.value, now);
        OpenedIsActive(room, id, now);
        EvictedRows(s, victim.value, now, id.tenant, batch);
        OpenedRows(room, id, now, id.tenant, batch);
        StagedTwice(s, room, open, now, id.tenant, batch);
        AddedRows(open, now, id, es, batch);
        StagedTwice(s, open, AddSpans(open, now, id, es).tables, now, id.tenant, batch);
      }
    } else if s.traces[id].status.Decided? {
      StagedOnce(s, now, id.tenant, batch);
    } else {
      AddedRows(s, now, id, es, batch);
    }
  }

  lemma OpenedIsActive(s: Tables, id: TraceKey, now: int)
    ensures Active(Opened(s, now, id), id)
  {
  }

  lemma EvictKeepsTraces(s: Tables, id: TraceKey, now: int)
    requires id in s.traces
    ensures forall x :: x in Evict(s, id, EvictedPressure, now).traces <==> x in s.traces
  {
  }

  lemma {:induction false} StageGroupsRows(s: Tables, shard: Sharding, now: int, locks: Locks, tenant: string,
                                           groups: seq<Group>, victims: seq<Option<TraceKey>>, batch: seq<Envelope>)
    requires |groups| == |victims| && LegitVictims(s, shard, now, locks, tenant, groups, victims)
    requires forall g :: g in groups ==>
               forall e :: e in g.envelopes ==> Belongs(e.eventKey, TraceKey(tenant, g.trace), e, tenant, batch)
    requires StageGroups(s, shard, now, tenant, groups, victims).Accepted?
    ensures StagedRows(s, StageGroups(s, shard, now, tenant, groups, victims).tables, now, tenant, batch)
    decreases |groups|
  {
    hide StageTrace, LegitVictim, StagedRows, Belongs;
    if groups == [] {
      StagedOnce(s, now, tenant, batch);
    } else {
      var id := TraceKey(tenant, groups[0].trace);
      VictimIsOther(s, shard, locks(groups[0].trace), id, victims[0]);
      StageTraceRows(s, shard, now, id, groups[0].envelopes, victims[0], batch);
      var t := StageTrace(s, shard, now, id, groups[0].envelopes, victims[0]).tables;
      StageGroupsRows(t, shard, now, locks, tenant, groups[1..], victims[1..], batch);
      StagedTwice(s, t, StageGroups(s, shard, now, tenant, groups, victims).tables, now, tenant, batch);
    }
  }

  lemma VictimIsOther(s: Tables, shard: Sharding, locked: set<TraceKey>, id: TraceKey, victim: Option<TraceKey>)
    requires LegitVictim(s, shard, locked, id, victim)
    ensures victim.Some? ==> victim.value != id
  {
  }

  // An accepted batch: each new trace row is first seen at the staging's clock, every
  // other one keeps its time, a trace that gains a span is last seen at that clock,
  // each new row is of an envelope of the batch under its own key, trace and tenant,
  // and a trace that is closed is closed by pressure.
  lemma StageBatchRows(s: Tables, shard: Sharding, now: int, locks: Locks, batch: seq<Envelope>, groups: seq<Group>,
                       victims: seq<Option<TraceKey>>)
    requires |groups| == |victims| && Grouping(batch, groups) && batch != []
    requires LegitVictims(s, shard, now, locks, batch[0].tenantId, groups, victims)
    requires StageBatch(s, shard, now, batch, groups, victims).Accepted?
    ensures StagedRows(s, StageBatch(s, shard, now, batch, groups, victims).tables, now, batch[0].tenantId, batch)
  {
    var tenant := batch[0].tenantId;
    forall g | g in groups
      ensures forall e :: e in g.envelopes ==> Belongs(e.eventKey, TraceKey(tenant, g.trace), e, tenant, batch)
    {
      var i :| 0 <= i < |groups| && groups[i] == g;
      GroupBelongs(batch, tenant, g);
    }
    hide Grouping, Belongs, StagedRows, StageGroups, LegitVictims;
    StageGroupsRows(s, shard, now, locks, tenant, groups, victims, batch);
  }

  lemma GroupBelongs(batch: seq<Envelope>, tenant: string, g: Group)
    requires g.envelopes == OfTrace(batch, g.trace)
    ensures forall e :: e in g.envelopes ==> Belongs(e.eventKey, TraceKey(tenant, g.trace), e, tenant, batch)
  {
    OfTraceMembers(batch, g.trace);
  }
}
