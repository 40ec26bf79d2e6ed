// What every transaction of TailTables keeps. `Sound` holds in every run;
// `Complete` holds in the runs without retention or tenant deletion.
module TailInvariants {
  import opened Telemetry
  import opened Sampling
  import opened TailTables

  // ---------- invariants of every run ----------

  // A trace is decided exactly when it has a decision row, and the two agree.
  ghost predicate DecisionsAgree(s: Tables) {
    && (forall id :: id in s.decisions ==> id in s.traces)
    && (forall id :: id in s.traces ==> (id in s.decisions <==> s.traces[id].status.Decided?))
    && (forall id :: id in s.decisions && id in s.traces && s.traces[id].status.Decided? ==>
          var d, t := s.decisions[id], s.traces[id];
          && d.reason == t.status.reason && d.createdAt == t.status.at
          && d.spanCount == t.spanCount && d.retained == Retains(d.reason))
  }

  // A lease belongs to an undecided trace or an unpublished message.
  ghost predicate LeasesLive(s: Tables) {
    && (forall id :: id in s.traces && s.traces[id].lease.Held? ==> s.traces[id].status.Undecided?)
    && (forall k :: k in s.outbox && s.outbox[k].lease.Held? ==> s.outbox[k].publishedAt.None?)
  }

  predicate Keyed(e: Envelope, key: string, home: TraceKey) {
    e.eventKey == key && e.tenantId == home.tenant
  }

  // Only undecided traces own buffer rows.
  ghost predicate BuffersOpen(s: Tables) {
    forall k :: k in s.buffers ==> Active(s, s.buffers[k].home) && Keyed(s.buffers[k].envelope, k, s.buffers[k].home)
  }

  ghost predicate KeysAndOutboxKeyed(s: Tables) {
    && (forall k :: k in s.keys ==> Keyed(s.keys[k].origin, k, s.keys[k].home))
    && (forall k :: k in s.outbox ==>
          s.outbox[k].envelope.eventKey == k && s.outbox[k].envelope.tenantId == s.outbox[k].tenant)
  }

  ghost predicate Counted(s: Tables, id: TraceKey)
    requires id in s.traces
  {
    && |BufferedIn(s, id)| == s.traces[id].spanCount <= MAX_SPANS
    && 1 <= s.traces[id].generation <= s.traces[id].spanCount + 1
  }

  ghost predicate OpenTracesCounted(s: Tables) {
    forall id :: id in s.traces && Active(s, id) ==> Counted(s, id)
  }

  ghost predicate ShardsBounded(s: Tables, shard: Sharding) {
    forall tenant: string, n: Shard :: |ActiveInShard(s, shard, tenant, n)| <= SHARD_TRACES
  }

  ghost predicate Sound(s: Tables, shard: Sharding) {
    && DecisionsAgree(s) && LeasesLive(s) && BuffersOpen(s) && KeysAndOutboxKeyed(s)
    && OpenTracesCounted(s) && ShardsBounded(s, shard)
  }

  lemma SoundLeases(s: Tables, shard: Sharding)
    requires Sound(s, shard)
    ensures LeasesLive(s) && DecisionsAgree(s)
  {
  }

  // ---------- invariants of runs without deletion ----------

  ghost predicate RetainedTrace(s: Tables, id: TraceKey) {
    id in s.traces && s.traces[id].status.Decided? && Retains(s.traces[id].status.reason)
  }

  // Each registered key is in exactly one place: a buffer, the outbox, or a
  // trace whose decision says it was not retained.
  ghost predicate EachKeyInOnePlace(s: Tables) {
    && (forall k :: k in s.buffers || k in s.outbox ==> k in s.keys)
    && (forall k :: k in s.keys ==>
          var home := s.keys[k].home;
          && home in s.traces
          && (k in s.buffers <==> Active(s, home))
          && (k in s.outbox <==> RetainedTrace(s, home)))
  }

  // The bytes that were registered are the bytes that are stored.
  ghost predicate Verbatim(s: Tables) {
    && (forall k :: k in s.buffers && k in s.keys ==>
          s.buffers[k].envelope == s.keys[k].origin && s.buffers[k].home == s.keys[k].home)
    && (forall k :: k in s.outbox && k in s.keys ==> s.outbox[k].envelope == s.keys[k].origin)
  }

  ghost predicate SpanCountsMatchKeys(s: Tables) {
    forall id :: id in s.traces ==> s.traces[id].spanCount == |RegisteredTo(s, id)|
  }

  ghost predicate Complete(s: Tables) {
    EachKeyInOnePlace(s) && Verbatim(s) && SpanCountsMatchKeys(s)
  }

  // Every span ever accepted for the trace.
  ghost function AcceptedSpans(s: Tables, id: TraceKey): set<Envelope> {
    set k | k in s.keys && s.keys[k].home == id :: s.keys[k].origin
  }

  // Every verdict is either an eviction or what the classifier says of all the
  // spans the trace ever accepted.
  ghost predicate Justified(s: Tables, config: Config) {
    forall id :: id in s.traces && s.traces[id].status.Decided? ==>
      var reason := s.traces[id].status.reason;
      reason.EvictedPressure? || reason == Verdict(id.trace, AcceptedSpans(s, id), config)
  }

  // ---------- helpers ----------

  lemma FewerActiveKeepBounds(s: Tables, t: Tables, shard: Sharding)
    requires ShardsBounded(s, shard)
    requires forall id :: id in t.traces && Active(t, id) ==> Active(s, id)
    ensures ShardsBounded(t, shard)
  {
    forall tenant: string, n: Shard ensures |ActiveInShard(t, shard, tenant, n)| <= SHARD_TRACES {
      SubsetIsNoLarger(ActiveInShard(t, shard, tenant, n), ActiveInShard(s, shard, tenant, n));
    }
  }

  lemma SameBuffersStayCounted(s: Tables, t: Tables)
    requires OpenTracesCounted(s)
    requires forall id :: id in t.traces && Active(t, id) ==>
               Active(s, id) && BufferedIn(t, id) == BufferedIn(s, id)
               && t.traces[id].spanCount == s.traces[id].spanCount && t.traces[id].generation == s.traces[id].generation
    ensures OpenTracesCounted(t)
  {
    forall id | id in t.traces && Active(t, id) ensures Counted(t, id) {
      assert Counted(s, id);
    }
  }

  // ---------- closing a trace (eviction and decision) ----------

  // What eviction and decision have in common.
  ghost function Close(s: Tables, id: TraceKey, reason: Reason, now: int): Tables
    requires id in s.traces
  {
    var count := |BufferedIn(s, id)|;
    s.(outbox := if Retains(reason) then MovedToOutbox(s, id, now) else s.outbox,
       buffers := WithoutBuffersOf(s, id),
       traces := s.traces[id := Closed(s.traces[id], reason, now, count)],
       decisions := s.decisions[id := DecisionRow(reason, Retains(reason), count, now)])
  }

  // The plain insert of a decision never meets the unique constraint: a leased
  // trace is undecided, and an undecided trace has no decision row.
  lemma RecordCloses(s: Tables, owner: string, lease: TraceLease, reason: Reason, now: int)
    requires DecisionsAgree(s)
    ensures var r := RecordDecision(s, owner, lease, reason, Retains(reason), now);
            if StillLeased(s, owner, lease) then r == Applied(Close(s, lease.id, reason, now)) else r == Stale
  {
  }

  lemma EvictCloses(s: Tables, id: TraceKey, reason: Reason, now: int)
    requires DecisionsAgree(s) && Active(s, id) && !Retains(reason)
    ensures Evict(s, id, reason, now) == Close(s, id, reason, now)
  {
  }

  lemma CloseKeepsDecisionsAgree(s: Tables, id: TraceKey, reason: Reason, now: int)
    requires DecisionsAgree(s) && LeasesLive(s) && Active(s, id)
    ensures DecisionsAgree(Close(s, id, reason, now)) && LeasesLive(Close(s, id, reason, now))
  {
  }

  lemma CloseKeepsKeyed(s: Tables, id: TraceKey, reason: Reason, now: int)
    requires BuffersOpen(s) && KeysAndOutboxKeyed(s) && Active(s, id)
    ensures BuffersOpen(Close(s, id, reason, now)) && KeysAndOutboxKeyed(Close(s, id, reason, now))
  {
  }

  lemma CloseKeepsSound(s: Tables, shard: Sharding, id: TraceKey, reason: Reason, now: int)
    requires Sound(s, shard) && Active(s, id)
    ensures Sound(Close(s, id, reason, now), shard)
  {
    var t := Close(s, id, reason, now);
    CloseKeepsDecisionsAgree(s, id, reason, now);
    CloseKeepsKeyed(s, id, reason, now);
    forall other | other in t.traces && Active(t, other) ensures BufferedIn(t, other) == BufferedIn(s, other) {}
    SameBuffersStayCounted(s, t);
    FewerActiveKeepBounds(s, t, shard);
  }

  lemma CloseKeepsEachKeyInOnePlace(s: Tables, id: TraceKey, reason: Reason, now: int)
    requires BuffersOpen(s) && EachKeyInOnePlace(s) && Verbatim(s) && Active(s, id)
    ensures EachKeyInOnePlace(Close(s, id, reason, now))
  {
    var t := Close(s, id, reason, now);
    forall k | k in t.keys
      ensures var home := t.keys[k].home;
              && home in t.traces
              && (k in t.buffers <==> Active(t, home))
              && (k in t.outbox <==> RetainedTrace(t, home))
    {
      if s.keys[k].home == id {
        assert k in BufferedIn(s, id);
      }
    }
  }

  lemma CloseKeepsVerbatim(s: Tables, id: TraceKey, reason: Reason, now: int)
    requires EachKeyInOnePlace(s) && Verbatim(s) && Active(s, id)
    ensures Verbatim(Close(s, id, reason, now))
  {
  }

  lemma BufferedIsRegistered(s: Tables, id: TraceKey)
    requires EachKeyInOnePlace(s) && Verbatim(s) && Active(s, id)
    ensures BufferedIn(s, id) == RegisteredTo(s, id)
  {
  }

  lemma CloseKeepsSpanCounts(s: Tables, id: TraceKey, reason: Reason, now: int)
    requires SpanCountsMatchKeys(s) && Active(s, id) && BufferedIn(s, id) == RegisteredTo(s, id)
    ensures SpanCountsMatchKeys(Close(s, id, reason, now))
  {
    var t := Close(s, id, reason, now);
    forall other | other in t.traces ensures t.traces[other].spanCount == |RegisteredTo(t, other)| {
      assert RegisteredTo(t, other) == RegisteredTo(s, other);
    }
  }

  lemma CloseKeepsComplete(s: Tables, id: TraceKey, reason: Reason, now: int)
    requires BuffersOpen(s) && Complete(s) && Active(s, id)
    ensures Complete(Close(s, id, reason, now))
  {
    CloseKeepsEachKeyInOnePlace(s, id, reason, now);
    CloseKeepsVerbatim(s, id, reason, now);
    BufferedIsRegistered(s, id);
    CloseKeepsSpanCounts(s, id, reason, now);
  }

  lemma CloseKeepsJustified(s: Tables, config: Config, id: TraceKey, reason: Reason, now: int)
    requires Justified(s, config) && Active(s, id)
    requires reason.EvictedPressure? || reason == Verdict(id.trace, AcceptedSpans(s, id), config)
    ensures Justified(Close(s, id, reason, now), config)
  {
    var t := Close(s, id, reason, now);
    forall other ensures AcceptedSpans(t, other) == AcceptedSpans(s, other) {}
  }

  // ---------- staging ----------

  lemma {:induction false} KnownIsNotFresh(keys: map<string, KeyRow>, es: seq<Envelope>)
    requires forall e :: e in es ==> e.eventKey in keys
    ensures FreshEnvelopes(keys, es) == []
  {
    if es != [] {
      KnownIsNotFresh(keys, es[1..]);
    }
  }

  lemma {:induction false} FreshEnvelopesAreNew(keys: map<string, KeyRow>, es: seq<Envelope>)
    ensures forall e :: e in FreshEnvelopes(keys, es) <==> e in es && e.eventKey !in keys
  {
    if es != [] {
      FreshEnvelopesAreNew(keys, es[1..]);
    }
  }

  lemma {:induction false} DistinctKeysCount(es: seq<Envelope>)
    requires DistinctKeys(es)
    ensures |KeysOf(es)| == |es|
  {
    if es != [] {
      var rest := es[1..];
      DistinctKeysCount(rest);
      assert KeysOf(es) == {es[0].eventKey} + KeysOf(rest);
      assert es[0].eventKey !in KeysOf(rest);
    }
  }

  ghost predicate ForTrace(es: seq<Envelope>, id: TraceKey) {
    forall e :: e in es ==> e.tenantId == id.tenant
  }

  lemma OpenKeepsCounted(s: Tables, now: int, id: TraceKey)
    requires OpenTracesCounted(s) && BuffersOpen(s) && id !in s.traces
    ensures OpenTracesCounted(Opened(s, now, id))
  {
    var t := Opened(s, now, id);
    assert BufferedIn(t, id) == {};
    forall other | other in t.traces && Active(t, other) ensures Counted(t, other) {
      if other != id {
        assert BufferedIn(t, other) == BufferedIn(s, other);
        assert Counted(s, other);
      }
    }
  }

  lemma OpenKeepsShardsBounded(s: Tables, shard: Sharding, now: int, id: TraceKey)
    requires ShardsBounded(s, shard) && id !in s.traces && HasRoom(s, shard, id)
    ensures ShardsBounded(Opened(s, now, id), shard)
  {
    hide ActiveInShard, HasRoom, Opened;
    forall tenant: string, n: Shard ensures |ActiveInShard(Opened(s, now, id), shard, tenant, n)| <= SHARD_TRACES {
      OpenKeepsShard(s, shard, now, id, tenant, n);
    }
  }

  lemma OpenKeepsShard(s: Tables, shard: Sharding, now: int, id: TraceKey, tenant: string, n: Shard)
    requires |ActiveInShard(s, shard, tenant, n)| <= SHARD_TRACES && id !in s.traces && HasRoom(s, shard, id)
    ensures |ActiveInShard(Opened(s, now, id), shard, tenant, n)| <= SHARD_TRACES
  {
    var t := Opened(s, now, id);
    if tenant == id.tenant && n == shard(id.trace) {
      assert ActiveInShard(t, shard, tenant, n) == ActiveInShard(s, shard, tenant, n) + {id};
    } else {
      assert ActiveInShard(t, shard, tenant, n) == ActiveInShard(s, shard, tenant, n);
    }
  }

  lemma OpenKeepsSound(s: Tables, shard: Sharding, now: int, id: TraceKey)
    requires Sound(s, shard) && id !in s.traces && HasRoom(s, shard, id)
    ensures Sound(Opened(s, now, id), shard)
  {
    OpenKeepsCounted(s, now, id);
    OpenKeepsShardsBounded(s, shard, now, id);
    OpenKeepsRows(s, now, id);
    hide OpenTracesCounted, ShardsBounded, HasRoom, DecisionsAgree, LeasesLive, BuffersOpen, KeysAndOutboxKeyed, Opened;
  }

  lemma OpenKeepsRows(s: Tables, now: int, id: TraceKey)
    requires DecisionsAgree(s) && LeasesLive(s) && BuffersOpen(s) && KeysAndOutboxKeyed(s) && id !in s.traces
    ensures var t := Opened(s, now, id); DecisionsAgree(t) && LeasesLive(t) && BuffersOpen(t) && KeysAndOutboxKeyed(t)
  {
  }

  lemma OpenKeepsComplete(s: Tables, now: int, id: TraceKey)
    requires Complete(s) && id !in s.traces
    ensures Complete(Opened(s, now, id))
  {
    hide EachKeyInOnePlace, RegisteredTo;
    OpenKeepsPlaces(s, now, id);
    OpenKeepsRegistered(s, now, id);
  }

  lemma OpenKeepsPlaces(s: Tables, now: int, id: TraceKey)
    requires EachKeyInOnePlace(s) && id !in s.traces
    ensures EachKeyInOnePlace(Opened(s, now, id))
  {
  }

  lemma OpenKeepsRegistered(s: Tables, now: int, id: TraceKey)
    requires EachKeyInOnePlace(s) && id !in s.traces
    ensures RegisteredTo(s, id) == {}
    ensures forall other :: RegisteredTo(Opened(s, now, id), other) == RegisteredTo(s, other)
  {
  }

  lemma OpenKeepsJustified(s: Tables, config: Config, now: int, id: TraceKey)
    requires Justified(s, config)
    ensures Justified(Opened(s, now, id), config)
  {
    var t := Opened(s, now, id);
    forall other ensures AcceptedSpans(t, other) == AcceptedSpans(s, other) {}
  }

  // The envelopes `added` may be registered to the undecided trace `id`.
  ghost predicate Registrable(s: Tables, id: TraceKey, added: map<string, Envelope>) {
    && Active(s, id) && |added| > 0
    && (forall k :: k in added ==> Keyed(added[k], k, id))
    && (forall k :: k in added ==> k !in s.keys && k !in s.buffers)
    && s.traces[id].spanCount + |added| <= MAX_SPANS
  }

  lemma RegisterKeepsCounted(s: Tables, now: int, id: TraceKey, added: map<string, Envelope>)
    requires OpenTracesCounted(s) && Registrable(s, id, added)
    ensures OpenTracesCounted(Registered(s, now, id, added))
  {
    var t := Registered(s, now, id, added);
    RegisteredOwnBuffers(s, now, id, added);
    hide WithKeyRows, WithBufferRows, BufferedIn;
    forall other | other in t.traces && Active(t, other) ensures Counted(t, other) {
      assert Counted(s, other);
      if other != id {
        RegisteredOtherBuffers(s, now, id, added, other);
      }
    }
  }

  lemma RegisteredBuffer(s: Tables, now: int, id: TraceKey, added: map<string, Envelope>, k: string)
    requires id in s.traces
    ensures var t := Registered(s, now, id, added);
            && (k in t.buffers <==> k in s.buffers || k in added)
            && (k in t.buffers ==> t.buffers[k].home == if k in added then id else s.buffers[k].home)
  {
  }

  lemma RegisteredOwnBuffers(s: Tables, now: int, id: TraceKey, added: map<string, Envelope>)
    requires id in s.traces && forall k :: k in added ==> k !in s.buffers
    ensures |BufferedIn(Registered(s, now, id, added), id)| == |BufferedIn(s, id)| + |added|
  {
    hide Registered;
    var t, news := Registered(s, now, id, added), added.Keys;
    forall k ensures k in BufferedIn(t, id) <==> k in BufferedIn(s, id) || k in news {
      RegisteredBuffer(s, now, id, added, k);
    }
    assert forall k :: k in news ==> k !in BufferedIn(s, id);
    hide BufferedIn;
    UnionSize(BufferedIn(t, id), BufferedIn(s, id), news);
  }

  lemma UnionSize(whole: set<string>, a: set<string>, b: set<string>)
    requires forall k :: k in whole <==> k in a || k in b
    requires forall k :: k in b ==> k !in a
    ensures |whole| == |a| + |b|
  {
    assert whole == a + b && a !! b;
  }

  lemma RegisteredOtherBuffers(s: Tables, now: int, id: TraceKey, added: map<string, Envelope>, other: TraceKey)
    requires id in s.traces && other != id && forall k :: k in added ==> k !in s.buffers
    ensures BufferedIn(Registered(s, now, id, added), other) == BufferedIn(s, other)
  {
    hide Registered;
    var t := Registered(s, now, id, added);
    forall k ensures k in BufferedIn(t, other) <==> k in BufferedIn(s, other) {
      RegisteredBuffer(s, now, id, added, k);
    }
  }

  lemma RegisterKeepsDecisionsAgree(s: Tables, now: int, id: TraceKey, added: map<string, Envelope>)
    requires DecisionsAgree(s) && LeasesLive(s) && Active(s, id)
    ensures DecisionsAgree(Registered(s, now, id, added)) && LeasesLive(Registered(s, now, id, added))
  {
    hide WithKeyRows, WithBufferRows;
  }

  lemma RegisterKeepsKeyed(s: Tables, now: int, id: TraceKey, added: map<string, Envelope>)
    requires BuffersOpen(s) && KeysAndOutboxKeyed(s) && Registrable(s, id, added)
    ensures BuffersOpen(Registered(s, now, id, added)) && KeysAndOutboxKeyed(Registered(s, now, id, added))
  {
    hide WithKeyRows, WithBufferRows;
  }

  lemma RegisterKeepsSound(s: Tables, shard: Sharding, now: int, id: TraceKey, added: map<string, Envelope>)
    requires Sound(s, shard) && Registrable(s, id, added)
    ensures Sound(Registered(s, now, id, added), shard)
  {
    hide WithKeyRows, WithBufferRows;
    var t := Registered(s, now, id, added);
    RegisterKeepsDecisionsAgree(s, now, id, added);
    RegisterKeepsKeyed(s, now, id, added);
    RegisterKeepsCounted(s, now, id, added);
    FewerActiveKeepBounds(s, t, shard);
  }

  lemma RegisterKeepsPlace(s: Tables, now: int, id: TraceKey, added: map<string, Envelope>, k: string)
    requires EachKeyInOnePlace(s) && Registrable(s, id, added)
    ensures var t := Registered(s, now, id, added);
            && (k in t.buffers || k in t.outbox ==> k in t.keys)
            && (k in t.keys ==>
                  var home := t.keys[k].home;
                  && home in t.traces && (k in t.buffers <==> Active(t, home))
                  && (k in t.outbox <==> RetainedTrace(t, home)))
  {
    hide WithKeyRows, WithBufferRows;
  }

  lemma RegisterKeepsPlaces(s: Tables, now: int, id: TraceKey, added: map<string, Envelope>)
    requires EachKeyInOnePlace(s) && Registrable(s, id, added)
    ensures EachKeyInOnePlace(Registered(s, now, id, added))
  {
    hide Registered, RetainedTrace;
    var t := Registered(s, now, id, added);
    forall k | k in t.keys
      ensures var home := t.keys[k].home;
              && home in t.traces && (k in t.buffers <==> Active(t, home))
              && (k in t.outbox <==> RetainedTrace(t, home))
    {
      RegisterKeepsPlace(s, now, id, added, k);
    }
    forall k | k in t.buffers || k in t.outbox ensures k in t.keys {
      RegisterKeepsPlace(s, now, id, added, k);
    }
  }

  lemma RegisterKeepsVerbatim(s: Tables, now: int, id: TraceKey, added: map<string, Envelope>)
    requires EachKeyInOnePlace(s) && Verbatim(s) && Registrable(s, id, added)
    ensures Verbatim(Registered(s, now, id, added))
  {
    hide WithKeyRows, WithBufferRows;
  }

  lemma RegisterExtendsOneTrace(s: Tables, now: int, id: TraceKey, added: map<string, Envelope>)
    requires Registrable(s, id, added)
    ensures |RegisteredTo(Registered(s, now, id, added), id)| == |RegisteredTo(s, id)| + |added|
    ensures forall other :: other != id ==> RegisteredTo(Registered(s, now, id, added), other) == RegisteredTo(s, other)
  {
    hide WithKeyRows, WithBufferRows;
    var t := Registered(s, now, id, added);
    assert RegisteredTo(t, id) == RegisteredTo(s, id) + added.Keys;
    assert RegisteredTo(s, id) !! added.Keys;
  }

  lemma RegisterKeepsSpanCounts(s: Tables, now: int, id: TraceKey, added: map<string, Envelope>)
    requires SpanCountsMatchKeys(s) && Registrable(s, id, added)
    ensures SpanCountsMatchKeys(Registered(s, now, id, added))
  {
    hide WithKeyRows, WithBufferRows;
    RegisterExtendsOneTrace(s, now, id, added);
  }

  lemma RegisterKeepsComplete(s: Tables, now: int, id: TraceKey, added: map<string, Envelope>)
    requires Complete(s) && Registrable(s, id, added)
    ensures Complete(Registered(s, now, id, added))
  {
    hide WithKeyRows, WithBufferRows;
    RegisterKeepsPlaces(s, now, id, added);
    RegisterKeepsVerbatim(s, now, id, added);
    RegisterKeepsSpanCounts(s, now, id, added);
  }

  lemma RegisterKeepsJustified(s: Tables, config: Config, now: int, id: TraceKey, added: map<string, Envelope>)
    requires Justified(s, config) && Registrable(s, id, added)
    ensures Justified(Registered(s, now, id, added), config)
  {
    hide WithKeyRows, WithBufferRows;
    var t := Registered(s, now, id, added);
    forall other | other in t.traces && other != id ensures AcceptedSpans(t, other) == AcceptedSpans(s, other) {}
  }

  // What the deduplicating insert lets through.
  lemma FreshIndex(s: Tables, es: seq<Envelope>, tenant: string)
    requires forall e :: e in es ==> e.tenantId == tenant
    ensures var added := Index(FreshEnvelopes(s.keys, es));
            && (forall k :: k in added ==> k !in s.keys && added[k].eventKey == k && added[k].tenantId == tenant)
            && (forall e :: e in es ==> e.eventKey in s.keys || e.eventKey in added)
            && (FreshEnvelopes(s.keys, es) != [] ==> |added| > 0)
            && |added| == |KeysOf(FreshEnvelopes(s.keys, es))|
  {
    var news := FreshEnvelopes(s.keys, es);
    FreshEnvelopesAreNew(s.keys, es);
    assert |Index(news)| == |KeysOf(news)|;
    if news != [] {
      assert news[0].eventKey in KeysOf(news);
    }
    forall e | e in es ensures e.eventKey in s.keys || e.eventKey in Index(news) {
      if e.eventKey !in s.keys {
        assert e in news;
      }
    }
  }

  lemma AddSpansCases(s: Tables, now: int, id: TraceKey, es: seq<Envelope>)
    requires id in s.traces && AddSpans(s, now, id, es).Accepted?
    ensures var news := FreshEnvelopes(s.keys, es);
            if news == [] then AddSpans(s, now, id, es).tables == s
            else
              && AddSpans(s, now, id, es).tables == Registered(s, now, id, Index(news))
              && s.traces[id].spanCount + |KeysOf(news)| <= MAX_SPANS
              && forall e :: e in news ==> e.eventKey !in s.buffers
  {
    hide FreshEnvelopes, Registered, Index, KeysOf, DistinctKeys;
  }

  // Registering spans at an undecided trace, as AddSpans does when it accepts.
  lemma AddSpansRegisters(s: Tables, now: int, id: TraceKey, es: seq<Envelope>)
    requires Active(s, id) && ForTrace(es, id)
    requires AddSpans(s, now, id, es).Accepted?
    ensures var added := Index(FreshEnvelopes(s.keys, es));
            && (forall e :: e in es ==> e.eventKey in s.keys || e.eventKey in added)
            && AddSpans(s, now, id, es).tables == (if |added| == 0 then s else Registered(s, now, id, added))
            && (|added| > 0 ==> Registrable(s, id, added))
  {
    hide AddSpans, FreshEnvelopes, Registered, KeysOf;
    FreshIndex(s, es, id.tenant);
    AddSpansCases(s, now, id, es);
  }

  lemma AddSpansKeeps(s: Tables, shard: Sharding, config: Config, now: int, id: TraceKey, es: seq<Envelope>)
    requires Sound(s, shard) && Active(s, id) && ForTrace(es, id)
    requires AddSpans(s, now, id, es).Accepted?
    ensures var t := AddSpans(s, now, id, es).tables;
            && Sound(t, shard)
            && (forall e :: e in es ==> e.eventKey in t.keys) && (forall k :: k in s.keys ==> k in t.keys)
            && (Complete(s) ==> Complete(t))
            && (Justified(s, config) ==> Justified(t, config))
  {
    AddSpansRegisters(s, now, id, es);
    var added := Index(FreshEnvelopes(s.keys, es));
    if |added| > 0 {
      RegisterKeepsSound(s, shard, now, id, added);
      if Complete(s) {
        RegisterKeepsComplete(s, now, id, added);
      }
      if Justified(s, config) {
        RegisterKeepsJustified(s, config, now, id, added);
      }
    }
  }

  // Evicting from a full shard leaves room for the new trace.
  lemma EvictMakesRoom(s: Tables, shard: Sharding, now: int, id: TraceKey, v: TraceKey)
    requires ShardsBounded(s, shard) && v in ActiveInShard(s, shard, id.tenant, shard(id.trace))
    ensures HasRoom(Evict(s, v, EvictedPressure, now), shard, id)
    ensures id !in s.traces ==> id !in Evict(s, v, EvictedPressure, now).traces
  {
    var n := shard(id.trace);
    assert ActiveInShard(Evict(s, v, EvictedPressure, now), shard, id.tenant, n)
        == ActiveInShard(s, shard, id.tenant, n) - {v};
  }

  lemma EvictKeeps(s: Tables, shard: Sharding, config: Config, now: int, v: TraceKey)
    requires Sound(s, shard) && Active(s, v)
    ensures var t := Evict(s, v, EvictedPressure, now);
            && Sound(t, shard) && t.keys == s.keys
            && (Complete(s) ==> Complete(t))
            && (Justified(s, config) ==> Justified(t, config))
  {
    EvictCloses(s, v, EvictedPressure, now);
    CloseKeepsSound(s, shard, v, EvictedPressure, now);
    if Complete(s) {
      CloseKeepsComplete(s, v, EvictedPressure, now);
    }
    if Justified(s, config) {
      CloseKeepsJustified(s, config, v, EvictedPressure, now);
    }
  }

  lemma OpenKeeps(s: Tables, shard: Sharding, config: Config, now: int, id: TraceKey)
    requires Sound(s, shard) && id !in s.traces && HasRoom(s, shard, id)
    ensures var t := Opened(s, now, id);
            && Sound(t, shard) && t.keys == s.keys && Active(t, id)
            && (Complete(s) ==> Complete(t))
            && (Justified(s, config) ==> Justified(t, config))
  {
    OpenKeepsSound(s, shard, now, id);
    if Complete(s) {
      OpenKeepsComplete(s, now, id);
    }
    if Justified(s, config) {
      OpenKeepsJustified(s, config, now, id);
    }
  }

  lemma AdmitKeeps(s: Tables, shard: Sharding, config: Config, now: int, locked: set<TraceKey>, id: TraceKey,
                   victim: Option<TraceKey>)
    requires Sound(s, shard) && id !in s.traces && LegitVictim(s, shard, locked, id, victim)
    requires Admit(s, shard, now, id, victim).Accepted?
    ensures var t := Admit(s, shard, now, id, victim).tables;
            && Sound(t, shard) && Active(t, id) && t.keys == s.keys
            && (Complete(s) ==> Complete(t))
            && (Justified(s, config) ==> Justified(t, config))
  {
    if HasRoom(s, shard, id) {
      OpenKeeps(s, shard, config, now, id);
    } else {
      EvictMakesRoom(s, shard, now, id, victim.value);
      EvictKeeps(s, shard, config, now, victim.value);
      OpenKeeps(Evict(s, victim.value, EvictedPressure, now), shard, config, now, id);
    }
  }

  lemma StageTraceKeeps(s: Tables, shard: Sharding, config: Config, now: int, locked: set<TraceKey>,
                        id: TraceKey, es: seq<Envelope>, victim: Option<TraceKey>)
    requires Sound(s, shard) && ForTrace(es, id) && LegitVictim(s, shard, locked, id, victim)
    requires StageTrace(s, shard, now, id, es, victim).Accepted?
    ensures var t := StageTrace(s, shard, now, id, es, victim).tables;
            && Sound(t, shard)
            && (forall e :: e in es ==> e.eventKey in t.keys) && (forall k :: k in s.keys ==> k in t.keys)
            && (Complete(s) ==> Complete(t))
            && (Justified(s, config) ==> Justified(t, config))
  {
    if id !in s.traces {
      AdmitKeeps(s, shard, config, now, locked, id, victim);
      AddSpansKeeps(Admit(s, shard, now, id, victim).tables, shard, config, now, id, es);
    } else if Active(s, id) {
      AddSpansKeeps(s, shard, config, now, id, es);
    }
  }

  lemma {:induction false} StageGroupsKeeps(s: Tables, shard: Sharding, config: Config, now: int, locks: Locks,
                                            tenant: string, groups: seq<Group>, victims: seq<Option<TraceKey>>)
    requires |groups| == |victims|
    requires Sound(s, shard) && LegitVictims(s, shard, now, locks, tenant, groups, victims)
    requires forall i :: 0 <= i < |groups| ==> ForTrace(groups[i].envelopes, TraceKey(tenant, groups[i].trace))
    requires StageGroups(s, shard, now, tenant, groups, victims).Accepted?
    ensures var t := StageGroups(s, shard, now, tenant, groups, victims).tables;
            && Sound(t, shard)
            && (forall k :: k in s.keys ==> k in t.keys)
            && (forall i, e :: 0 <= i < |groups| && e in groups[i].envelopes ==> e.eventKey in t.keys)
            && (Complete(s) ==> Complete(t))
            && (Justified(s, config) ==> Justified(t, config))
    decreases |groups|
  {
    hide Sound, Complete, Justified, StageTrace, LegitVictim;
    if groups != [] {
      var id := TraceKey(tenant, groups[0].trace);
      StageTraceKeeps(s, shard, config, now, locks(groups[0].trace), id, groups[0].envelopes, victims[0]);
      var t := StageTrace(s, shard, now, id, groups[0].envelopes, victims[0]).tables;
      StageGroupsKeeps(t, shard, config, now, locks, tenant, groups[1..], victims[1..]);
    }
  }

  lemma {:induction false} OfTraceMembers(batch: seq<Envelope>, trace: string)
    ensures forall e :: e in OfTrace(batch, trace) <==> e in batch && TailTraceId(e) == trace
  {
    if batch != [] {
      OfTraceMembers(batch[1..], trace);
    }
  }

  lemma GroupsCoverBatch(batch: seq<Envelope>, groups: seq<Group>, registered: set<string>)
    requires Grouping(batch, groups)
    requires forall i, e :: 0 <= i < |groups| && e in groups[i].envelopes ==> e.eventKey in registered
    ensures forall e :: e in batch ==> e.eventKey in registered
  {
    forall e | e in batch ensures e.eventKey in registered {
      assert TailTraceId(e) in TracesOf(batch);
      var i :| 0 <= i < |groups| && groups[i].trace == TailTraceId(e);
      OfTraceMembers(batch, groups[i].trace);
      assert e in groups[i].envelopes;
    }
  }

  lemma GroupsAreOfOneTenant(batch: seq<Envelope>, groups: seq<Group>, tenant: string)
    requires Grouping(batch, groups)
    requires forall e :: e in batch ==> e.tenantId == tenant
    ensures forall i :: 0 <= i < |groups| ==> ForTrace(groups[i].envelopes, TraceKey(tenant, groups[i].trace))
  {
    forall i | 0 <= i < |groups| ensures ForTrace(groups[i].envelopes, TraceKey(tenant, groups[i].trace)) {
      OfTraceMembers(batch, groups[i].trace);
    }
  }

  // An acknowledged batch: every key of it is registered, and all invariants hold.
  lemma StageBatchKeeps(s: Tables, shard: Sharding, config: Config, now: int, locks: Locks,
                        batch: seq<Envelope>, groups: seq<Group>, victims: seq<Option<TraceKey>>)
    requires |groups| == |victims| && Grouping(batch, groups) && Sound(s, shard)
    requires batch != [] ==> LegitVictims(s, shard, now, locks, batch[0].tenantId, groups, victims)
    requires StageBatch(s, shard, now, batch, groups, victims).Accepted?
    ensures var t := StageBatch(s, shard, now, batch, groups, victims).tables;
            && Sound(t, shard)
            && (forall k :: k in s.keys ==> k in t.keys) && (forall e :: e in batch ==> e.eventKey in t.keys)
            && (Complete(s) ==> Complete(t))
            && (Justified(s, config) ==> Justified(t, config))
  {
    if batch != [] {
      var tenant := batch[0].tenantId;
      GroupsAreOfOneTenant(batch, groups, tenant);
      StageGroupsKeeps(s, shard, config, now, locks, tenant, groups, victims);
      GroupsCoverBatch(batch, groups, StageBatch(s, shard, now, batch, groups, victims).tables.keys.Keys);
    }
  }

  // ---------- leases and the outbox ----------

  // Leasing changes nothing but leases.
  lemma ClaimTracesKeepsSound(s: Tables, shard: Sharding, ids: seq<TraceKey>, owner: string, until: int)
    requires Sound(s, shard) && forall id :: id in ids ==> Active(s, id)
    ensures Sound(ClaimTraces(s, ids, owner, until), shard)
  {
    var t := ClaimTraces(s, ids, owner, until);
    ClaimKeepsRows(s, ids, owner, until);
    forall id ensures BufferedIn(t, id) == BufferedIn(s, id) {}
    hide OpenTracesCounted, ShardsBounded, DecisionsAgree, LeasesLive, BuffersOpen, KeysAndOutboxKeyed, BufferedIn;
    SameBuffersStayCounted(s, t);
    FewerActiveKeepBounds(s, t, shard);
  }

  lemma ClaimKeepsRows(s: Tables, ids: seq<TraceKey>, owner: string, until: int)
    requires DecisionsAgree(s) && LeasesLive(s) && BuffersOpen(s) && KeysAndOutboxKeyed(s)
    requires forall id :: id in ids ==> Active(s, id)
    ensures var t := ClaimTraces(s, ids, owner, until);
            DecisionsAgree(t) && LeasesLive(t) && BuffersOpen(t) && KeysAndOutboxKeyed(t)
  {
  }

  lemma ClaimTracesKeepsComplete(s: Tables, ids: seq<TraceKey>, owner: string, until: int)
    requires Complete(s)
    ensures Complete(ClaimTraces(s, ids, owner, until))
  {
    ClaimKeepsPlaces(s, ids, owner, until);
    ClaimKeepsSpanCounts(s, ids, owner, until);
    hide EachKeyInOnePlace, SpanCountsMatchKeys;
  }

  lemma ClaimKeepsPlaces(s: Tables, ids: seq<TraceKey>, owner: string, until: int)
    requires EachKeyInOnePlace(s)
    ensures EachKeyInOnePlace(ClaimTraces(s, ids, owner, until))
  {
    var t := ClaimTraces(s, ids, owner, until);
    forall id ensures Active(t, id) <==> Active(s, id) {}
    forall id ensures RetainedTrace(t, id) <==> RetainedTrace(s, id) {}
    hide Active, RetainedTrace;
  }

  lemma ClaimKeepsSpanCounts(s: Tables, ids: seq<TraceKey>, owner: string, until: int)
    requires SpanCountsMatchKeys(s)
    ensures SpanCountsMatchKeys(ClaimTraces(s, ids, owner, until))
  {
    var t := ClaimTraces(s, ids, owner, until);
    forall id ensures RegisteredTo(t, id) == RegisteredTo(s, id) {}
  }

  lemma ClaimTracesKeepsJustified(s: Tables, config: Config, ids: seq<TraceKey>, owner: string, until: int)
    requires Justified(s, config)
    ensures Justified(ClaimTraces(s, ids, owner, until), config)
  {
    var t := ClaimTraces(s, ids, owner, until);
    forall id ensures AcceptedSpans(t, id) == AcceptedSpans(s, id) {}
  }

  // The two outbox updates change neither the other tables nor an envelope.
  ghost predicate OnlyOutboxState(s: Tables, t: Tables) {
    && t == s.(outbox := t.outbox)
    && t.outbox.Keys == s.outbox.Keys
    && (forall k :: k in s.outbox ==>
          t.outbox[k].envelope == s.outbox[k].envelope && t.outbox[k].tenant == s.outbox[k].tenant)
    && (forall k :: k in t.outbox && t.outbox[k].lease.Held? ==> t.outbox[k].publishedAt.None?)
  }

  lemma OutboxStateKeepsSound(s: Tables, t: Tables, shard: Sharding)
    requires Sound(s, shard) && OnlyOutboxState(s, t)
    ensures Sound(t, shard)
  {
    forall id ensures BufferedIn(t, id) == BufferedIn(s, id) {}
    SameBuffersStayCounted(s, t);
    FewerActiveKeepBounds(s, t, shard);
  }

  lemma OutboxStateKeepsComplete(s: Tables, t: Tables)
    requires Complete(s) && OnlyOutboxState(s, t)
    ensures Complete(t)
  {
    forall id ensures RegisteredTo(t, id) == RegisteredTo(s, id) {}
  }

  lemma OutboxStateKeepsJustified(s: Tables, t: Tables, config: Config)
    requires Justified(s, config) && OnlyOutboxState(s, t)
    ensures Justified(t, config)
  {
    forall id ensures AcceptedSpans(t, id) == AcceptedSpans(s, id) {}
  }

  lemma ClaimOutboxIsOutboxState(s: Tables, shard: Sharding, picked: seq<string>, owner: string, until: int)
    requires LeasesLive(s) && forall k :: k in picked ==> k in s.outbox && s.outbox[k].publishedAt.None?
    ensures OnlyOutboxState(s, ClaimOutbox(s, picked, owner, until))
  {
  }

  lemma MarkIsOutboxState(s: Tables, key: string, now: int)
    requires LeasesLive(s) && key in s.outbox
    ensures OnlyOutboxState(s, MarkPublished(s, key, now))
  {
  }

  // ---------- deletion ----------

  // Retention leaves every buffer row, every undecided trace and every
  // unpublished message in place, although deleting a trace cascades to its
  // buffers: a decided trace owns none.
  lemma RetentionSparesUndelivered(s: Tables, tenant: string, cutoff: int)
    requires BuffersOpen(s)
    ensures var t := DeleteBefore(s, tenant, cutoff);
            && t.buffers == s.buffers
            && (forall id :: id in s.traces && Active(s, id) ==> id in t.traces && t.traces[id] == s.traces[id])
            && (forall k :: k in s.outbox && s.outbox[k].publishedAt.None? ==>
                  k in t.outbox && t.outbox[k] == s.outbox[k])
  {
  }

  lemma RetentionKeepsSound(s: Tables, shard: Sharding, tenant: string, cutoff: int)
    requires Sound(s, shard)
    ensures Sound(DeleteBefore(s, tenant, cutoff), shard)
  {
    hide DecisionsAgree, LeasesLive, KeysAndOutboxKeyed, ShardsBounded;
    var t := DeleteBefore(s, tenant, cutoff);
    RetentionSparesUndelivered(s, tenant, cutoff);
    RetentionKeepsRows(s, tenant, cutoff);
    forall id | id in t.traces && Active(t, id) ensures BufferedIn(t, id) == BufferedIn(s, id) {}
    SameBuffersStayCounted(s, t);
    FewerActiveKeepBounds(s, t, shard);
  }

  lemma RetentionKeepsRows(s: Tables, tenant: string, cutoff: int)
    requires DecisionsAgree(s) && LeasesLive(s) && BuffersOpen(s) && KeysAndOutboxKeyed(s)
    ensures var t := DeleteBefore(s, tenant, cutoff);
            DecisionsAgree(t) && LeasesLive(t) && BuffersOpen(t) && KeysAndOutboxKeyed(t)
  {
    RetentionSparesUndelivered(s, tenant, cutoff);
  }

  lemma TenantDeletionKeepsSound(s: Tables, shard: Sharding, tenant: string)
    requires Sound(s, shard)
    ensures Sound(DeleteTenant(s, tenant), shard)
  {
    var t := DeleteTenant(s, tenant);
    TenantDeletionKeepsRows(s, tenant);
    hide DecisionsAgree, LeasesLive, KeysAndOutboxKeyed;
    forall id | id in t.traces && Active(t, id) ensures BufferedIn(t, id) == BufferedIn(s, id) {}
    SameBuffersStayCounted(s, t);
    FewerActiveKeepBounds(s, t, shard);
  }

  lemma TenantDeletionKeepsRows(s: Tables, tenant: string)
    requires DecisionsAgree(s) && LeasesLive(s) && BuffersOpen(s) && KeysAndOutboxKeyed(s)
    ensures var t := DeleteTenant(s, tenant);
            DecisionsAgree(t) && LeasesLive(t) && BuffersOpen(t) && KeysAndOutboxKeyed(t)
  {
  }
}
