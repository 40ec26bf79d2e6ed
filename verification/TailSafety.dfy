// Safety over every run, deletions included: an acknowledged key is never lost
// without a decision row or a deletion request to show for it, and every fact
// the gateways establish holds in every store.
module TailSafety {
  import opened Telemetry
  import opened Sampling
  import opened TailTables
  import opened TailInvariants
  import opened TailMachine
  import opened Broker
  import opened TailEffects

  // ---------- delivered keys ----------

  function Delivered(log: seq<Record>): set<string> {
    set i | 0 <= i < |log| && Processable(log[i]) :: log[i].payload.envelope.eventKey
  }

  lemma DeliveredGrows(log: seq<Record>, r: Record)
    ensures Delivered(log) <= Delivered(log + [r])
    ensures Processable(r) ==> r.payload.envelope.eventKey in Delivered(log + [r])
  {
    var longer := log + [r];
    forall k | k in Delivered(log) ensures k in Delivered(longer) {
      var i :| 0 <= i < |log| && Processable(log[i]) && log[i].payload.envelope.eventKey == k;
      assert longer[i] == log[i];
    }
    assert longer[|log|] == r;
  }

  // ---------- the invariant ----------

  ghost predicate TablesMade(s: Tables, made: Envelope -> bool) {
    && (forall k :: k in s.buffers ==> made(s.buffers[k].envelope))
    && (forall k :: k in s.keys ==> made(s.keys[k].origin))
    && (forall k :: k in s.outbox ==> made(s.outbox[k].envelope))
  }

  predicate GoodMessage(m: Message, made: Envelope -> bool) {
    m.envelope.eventKey == m.key && made(m.envelope)
  }

  function QueueOf(t: Tailer): seq<Message> {
    if t.Publishing? || t.Acknowledged? then t.queue else []
  }

  ghost predicate QueuesMade(s: State, made: Envelope -> bool) {
    forall w, i :: w in s.tailers && 0 <= i < |QueueOf(s.tailers[w])| ==> GoodMessage(QueueOf(s.tailers[w])[i], made)
  }

  ghost predicate LogMade(s: State, made: Envelope -> bool) {
    forall i :: 0 <= i < |s.log| && Processable(s.log[i]) ==> made(s.log[i].payload.envelope)
  }

  // Publish before mark.
  ghost predicate PublishedDelivered(s: State) {
    && (forall k :: k in s.db.outbox && s.db.outbox[k].publishedAt.Some? ==> k in Delivered(s.log))
    && (forall w :: w in s.tailers && s.tailers[w].Acknowledged? && s.tailers[w].queue != [] ==>
          s.tailers[w].queue[0].key in Delivered(s.log))
  }

  predicate Accounted(s: State, k: string) {
    || k in s.db.buffers
    || (k in s.db.outbox && s.db.outbox[k].publishedAt.None?)
    || k in Delivered(s.log)
    || k in s.dropped
    || k in s.erased
  }

  ghost predicate AckedAccounted(s: State) {
    && s.db.keys.Keys <= s.acked
    && forall k :: k in s.acked ==> Accounted(s, k)
  }

  ghost predicate Safe(u: Setup, s: State) {
    && Sound(s.db, u.shard)
    && TablesMade(s.db, u.made) && QueuesMade(s, u.made) && LogMade(s, u.made)
    && PublishedDelivered(s) && AckedAccounted(s)
  }

  // Envelopes the gateways make can be processed by the persistence worker.
  ghost predicate MadeIsProcessable(u: Setup) {
    forall e :: u.made(e) ==> e.eventKey != "" && e.tenantId != "" && SupportedVersion(e.schemaVersion)
  }

  // ---------- staging ----------

  // Staging stores envelopes of the batch, under keys of the batch, and no others.
  ghost predicate MadeWithin(s: Tables, made: Envelope -> bool, allowed: set<string>) {
    TablesMade(s, made) && s.keys.Keys <= allowed
  }

  ghost predicate Allowed(es: seq<Envelope>, made: Envelope -> bool, allowed: set<string>) {
    forall e :: e in es ==> made(e) && e.eventKey in allowed
  }

  lemma RegisterMade(s: Tables, made: Envelope -> bool, allowed: set<string>, now: int, id: TraceKey,
                     added: map<string, Envelope>)
    requires id in s.traces && MadeWithin(s, made, allowed)
    requires added.Keys <= allowed && forall k :: k in added ==> made(added[k])
    ensures MadeWithin(Registered(s, now, id, added), made, allowed)
  {
  }

  lemma FreshIndexAllowed(keys: map<string, KeyRow>, es: seq<Envelope>, made: Envelope -> bool, allowed: set<string>)
    requires Allowed(es, made, allowed)
    ensures var added := Index(FreshEnvelopes(keys, es));
            added.Keys <= allowed && forall k :: k in added ==> made(added[k])
  {
    FreshEnvelopesAreNew(keys, es);
    var added := Index(FreshEnvelopes(keys, es));
    forall k | k in added ensures made(added[k]) && k in allowed {
      assert added[k] in es;
    }
  }

  lemma AddSpansRegistersOrNot(s: Tables, now: int, id: TraceKey, es: seq<Envelope>)
    requires id in s.traces && AddSpans(s, now, id, es).Accepted?
    ensures AddSpans(s, now, id, es).tables in {s, Registered(s, now, id, Index(FreshEnvelopes(s.keys, es)))}
  {
  }

  lemma AddSpansMade(s: Tables, made: Envelope -> bool, allowed: set<string>, now: int, id: TraceKey, es: seq<Envelope>)
    requires id in s.traces && MadeWithin(s, made, allowed) && Allowed(es, made, allowed)
    requires AddSpans(s, now, id, es).Accepted?
    ensures MadeWithin(AddSpans(s, now, id, es).tables, made, allowed)
  {
    AddSpansRegistersOrNot(s, now, id, es);
    FreshIndexAllowed(s.keys, es, made, allowed);
    RegisterMade(s, made, allowed, now, id, Index(FreshEnvelopes(s.keys, es)));
  }

  lemma StageTraceMade(s: Tables, shard: Sharding, made: Envelope -> bool, allowed: set<string>, now: int,
                       id: TraceKey, es: seq<Envelope>, victim: Option<TraceKey>)
    requires MadeWithin(s, made, allowed) && Allowed(es, made, allowed)
    requires StageTrace(s, shard, now, id, es, victim).Accepted?
    ensures MadeWithin(StageTrace(s, shard, now, id, es, victim).tables, made, allowed)
  {
    if id !in s.traces {
      AddSpansMade(Admit(s, shard, now, id, victim).tables, made, allowed, now, id, es);
    } else if Active(s, id) {
      AddSpansMade(s, made, allowed, now, id, es);
    }
  }

  lemma {:induction false} StageGroupsMade(s: Tables, shard: Sharding, made: Envelope -> bool, allowed: set<string>,
                                           now: int, tenant: string,
                                           groups: seq<Group>, victims: seq<Option<TraceKey>>)
    requires |groups| == |victims| && MadeWithin(s, made, allowed)
    requires forall i :: 0 <= i < |groups| ==> Allowed(groups[i].envelopes, made, allowed)
    requires StageGroups(s, shard, now, tenant, groups, victims).Accepted?
    ensures MadeWithin(StageGroups(s, shard, now, tenant, groups, victims).tables, made, allowed)
    decreases |groups|
  {
    if groups != [] {
      var id := TraceKey(tenant, groups[0].trace);
      StageTraceMade(s, shard, made, allowed, now, id, groups[0].envelopes, victims[0]);
      var t := StageTrace(s, shard, now, id, groups[0].envelopes, victims[0]).tables;
      StageGroupsMade(t, shard, made, allowed, now, tenant, groups[1..], victims[1..]);
    }
  }

  lemma StageBatchMade(s: Tables, shard: Sharding, made: Envelope -> bool, now: int, batch: seq<Envelope>,
                       groups: seq<Group>, victims: seq<Option<TraceKey>>)
    requires |groups| == |victims| && Grouping(batch, groups) && TablesMade(s, made)
    requires forall e :: e in batch ==> made(e)
    requires StageBatch(s, shard, now, batch, groups, victims).Accepted?
    ensures MadeWithin(StageBatch(s, shard, now, batch, groups, victims).tables, made, s.keys.Keys + KeysOf(batch))
  {
    if batch != [] {
      var allowed := s.keys.Keys + KeysOf(batch);
      forall i | 0 <= i < |groups| ensures Allowed(groups[i].envelopes, made, allowed) {
        OfTraceMembers(batch, groups[i].trace);
      }
      StageGroupsMade(s, shard, made, allowed, now, batch[0].tenantId, groups, victims);
    }
  }

  lemma EffectAccounted(s: State, t: State, batch: set<string>)
    requires Grows(s.db, t.db) && NothingVanishes(s.db, t.db) && AckedAccounted(s)
    requires batch <= t.db.keys.Keys && t.log == s.log && t.acked == s.acked + batch
    requires var registered := t.db.keys.Keys - s.db.keys.Keys;
             t.dropped == (s.dropped - registered) + RuledOut(s.db, t.db) && t.erased == s.erased - registered
    requires t.db.keys.Keys <= s.db.keys.Keys + batch
    ensures AckedAccounted(t)
  {
    forall k | k in t.acked ensures Accounted(t, k) {
      if k in t.db.keys && k !in s.db.keys {
        assert BufferedAt(t.db, k, t.db.keys[k].home) || DecidedAgainst(t.db, t.db.keys[k].home);
      } else {
        assert Accounted(s, k);
        if k in s.db.buffers {
          assert BufferedAt(t.db, k, s.db.buffers[k].home) || DecidedAgainst(t.db, s.db.buffers[k].home);
        }
      }
    }
  }

  lemma StageSafe(u: Setup, s: State, a: Action)
    requires a.Stage? && Enabled(u, s, a) && Safe(u, s)
    ensures Safe(u, Do(u, s, a))
  {
    var r := StageBatch(s.db, u.shard, a.now, a.batch, a.groups, a.victims);
    if r.Accepted? {
      StageBatchKeeps(s.db, u.shard, u.config, a.now, a.locks, a.batch, a.groups, a.victims);
      StageBatchMade(s.db, u.shard, u.made, a.now, a.batch, a.groups, a.victims);
      StageBatchEffect(s.db, u.shard, u.config, a.now, a.locks, a.batch, a.groups, a.victims);
      EffectAccounted(s, Do(u, s, a), KeysOf(a.batch));
    }
  }

  // ---------- the other steps ----------

  // Everything in `Safe` but `Sound`, for steps that leave the history alone.
  ghost predicate Traced(u: Setup, s: State) {
    TablesMade(s.db, u.made) && QueuesMade(s, u.made) && LogMade(s, u.made) && PublishedDelivered(s)
      && AckedAccounted(s)
  }

  lemma LeasingKeepsTraced(u: Setup, s: State, t: State, w: nat, leases: seq<TraceLease>)
    requires Traced(u, s) && TurnOf(s, t, w, t.db, Deciding(leases))
    requires t.db.buffers == s.db.buffers && t.db.keys == s.db.keys && t.db.outbox == s.db.outbox
    ensures Traced(u, t)
  {
  }

  lemma LeasingSafe(u: Setup, s: State, t: State, w: nat, ids: seq<TraceKey>, until: int)
    requires Safe(u, s) && forall id :: id in ids ==> id in s.db.traces && Active(s.db, id)
    requires TurnOf(s, t, w, ClaimTraces(s.db, ids, u.owner(w), until), Deciding(LeasesFor(s.db, ids)))
    ensures Safe(u, t)
  {
    hide Sound, AckedAccounted, TablesMade, QueuesMade, LogMade, PublishedDelivered;
    ClaimTracesKeepsSound(s.db, u.shard, ids, u.owner(w), until);
    LeasingKeepsTraced(u, s, t, w, LeasesFor(s.db, ids));
  }

  lemma ClaimLeasesSafe(u: Setup, s: State, a: Action)
    requires a.ClaimLeases? && Enabled(u, s, a) && Safe(u, s)
    ensures Safe(u, Do(u, s, a))
  {
    hide *;
    ClaimLeasesEffect(u, s, a);
    LeasingSafe(u, s, Do(u, s, a), a.w, a.ids, a.now + a.ttl);
  }

  lemma OutboxStateKeepsTraced(u: Setup, s: State, t: State, w: nat, x: Tailer)
    requires Traced(u, s)
    requires TurnOf(s, t, w, t.db, x)
    requires OnlyOutboxState(s.db, t.db)
    requires forall k :: k in t.db.outbox ==>
               (t.db.outbox[k].publishedAt == s.db.outbox[k].publishedAt || k in Delivered(s.log))
    requires forall i :: 0 <= i < |QueueOf(x)| ==> GoodMessage(QueueOf(x)[i], u.made)
    requires !x.Acknowledged?
    ensures Traced(u, t)
  {
  }

  lemma SafeAgrees(u: Setup, s: State)
    requires Safe(u, s)
    ensures DecisionsAgree(s.db)
  {
  }

  lemma IdleStepSafe(u: Setup, s: State, t: State, w: nat, x: Tailer)
    requires Safe(u, s) && t == s.(tailers := s.tailers[w := x]) && (x.Deciding? || x.Idle?)
    ensures Safe(u, t)
  {
    hide Sound, AckedAccounted;
    AccountedStays(s, t);
  }

  lemma AccountedStays(s: State, t: State)
    requires AckedAccounted(s) && t == s.(tailers := t.tailers)
    ensures AckedAccounted(t)
  {
    forall k | k in t.acked ensures Accounted(t, k) {
      assert Accounted(s, k);
    }
  }

  lemma SafeParts(u: Setup, s: State)
    requires Safe(u, s)
    ensures Sound(s.db, u.shard) && TablesMade(s.db, u.made) && PublishedDelivered(s) && AckedAccounted(s)
  {
  }

  lemma ClosingSafe(u: Setup, s: State, t: State, w: nat, x: Tailer, id: TraceKey, reason: Reason, now: int)
    requires Safe(u, s) && Active(s.db, id) && x.Deciding?
    requires t == s.(db := Close(s.db, id, reason, now), tailers := s.tailers[w := x],
                     dropped := s.dropped + RuledOut(s.db, Close(s.db, id, reason, now)))
    ensures Safe(u, t)
  {
    hide Sound, AckedAccounted, RuledOut, TablesMade, Close, PublishedDelivered;
    SafeParts(u, s);
    CloseKeepsSound(s.db, u.shard, id, reason, now);
    CloseAccounted(s, t, id, reason, now);
    CloseMade(s.db, u.made, id, reason, now);
    ClosePublished(s, t, id, reason, now);
  }

  lemma CloseMade(s: Tables, made: Envelope -> bool, id: TraceKey, reason: Reason, now: int)
    requires TablesMade(s, made) && id in s.traces
    ensures TablesMade(Close(s, id, reason, now), made)
  {
  }

  lemma ClosePublished(s: State, t: State, id: TraceKey, reason: Reason, now: int)
    requires PublishedDelivered(s) && id in s.db.traces && t.db == Close(s.db, id, reason, now) && t.log == s.log
    requires forall w :: w in t.tailers && t.tailers[w].Acknowledged? ==> w in s.tailers && t.tailers[w] == s.tailers[w]
    ensures PublishedDelivered(t)
  {
  }

  lemma ConcludeSafe(u: Setup, s: State, a: Action)
    requires a.Conclude? && Enabled(u, s, a) && Safe(u, s)
    ensures Safe(u, Do(u, s, a))
  {
    SafeAgrees(u, s);
    hide Safe;
    var t := TailerOf(s, a.w);
    var lease, d := t.todo[0], VerdictOf(u, t);
    DecideIsVerdictOfTheSet(lease.id.trace, t.spans, u.config);
    RecordCloses(s.db, u.owner(a.w), lease, d.reason, a.now);
    hide RecordDecision, Decide;
    if StillLeased(s.db, u.owner(a.w), lease) {
      ClosingSafe(u, s, Do(u, s, a), a.w, Deciding(t.todo[1..]), lease.id, d.reason, a.now);
    } else {
      IdleStepSafe(u, s, Do(u, s, a), a.w, Do(u, s, a).tailers[a.w]);
    }
  }

  // Closing a trace moves its keys to the outbox or leaves a decision against them.
  lemma CloseAccounted(s: State, t: State, id: TraceKey, reason: Reason, now: int)
    requires Active(s.db, id) && t.db == Close(s.db, id, reason, now)
    requires t.log == s.log && t.acked == s.acked && t.erased == s.erased
    requires t.dropped == s.dropped + RuledOut(s.db, t.db)
    requires AckedAccounted(s) && PublishedDelivered(s)
    ensures AckedAccounted(t)
  {
    forall k | k in t.acked ensures Accounted(t, k) {
      assert Accounted(s, k);
    }
  }

  lemma TakenAreGood(s: Tables, shard: Sharding, made: Envelope -> bool, picked: seq<string>)
    requires Sound(s, shard) && TablesMade(s, made) && forall k :: k in picked ==> k in s.outbox
    ensures forall i :: 0 <= i < |MessagesFor(s, picked)| ==> GoodMessage(MessagesFor(s, picked)[i], made)
  {
  }

  lemma TakingKeepsPublication(s: Tables, picked: seq<string>, owner: string, until: int)
    ensures var t := ClaimOutbox(s, picked, owner, until);
            forall k :: k in t.outbox ==> k in s.outbox && t.outbox[k].publishedAt == s.outbox[k].publishedAt
  {
  }

  lemma TakingSafe(u: Setup, s: State, t: State, w: nat, picked: seq<string>, until: int)
    requires Safe(u, s) && forall k :: k in picked ==> k in s.db.outbox && s.db.outbox[k].publishedAt.None?
    requires TurnOf(s, t, w, ClaimOutbox(s.db, picked, u.owner(w), until), Publishing(MessagesFor(s.db, picked)))
    ensures Safe(u, t)
  {
    hide Sound, AckedAccounted, TablesMade, QueuesMade, LogMade, PublishedDelivered, OnlyOutboxState, ClaimOutbox;
    hide GoodMessage;
    SoundLeases(s.db, u.shard);
    ClaimOutboxIsOutboxState(s.db, u.shard, picked, u.owner(w), until);
    OutboxStateKeepsSound(s.db, t.db, u.shard);
    TakenAreGood(s.db, u.shard, u.made, picked);
    TakingKeepsPublication(s.db, picked, u.owner(w), until);
    OutboxStateKeepsTraced(u, s, t, w, Publishing(MessagesFor(s.db, picked)));
  }

  lemma TakeMessagesSafe(u: Setup, s: State, a: Action)
    requires a.TakeMessages? && Enabled(u, s, a) && Safe(u, s)
    ensures Safe(u, Do(u, s, a))
  {
    hide *;
    TakeMessagesEffect(u, s, a);
    var t := Do(u, s, a);
    TakingSafe(u, s, t, a.w, a.picked, a.now + a.ttl);
  }

  lemma PublishSafe(u: Setup, s: State, a: Action)
    requires a.Publish? && Enabled(u, s, a) && Safe(u, s) && MadeIsProcessable(u)
    ensures Safe(u, Do(u, s, a))
  {
    var head := TailerOf(s, a.w).queue[0];
    assert GoodMessage(QueueOf(s.tailers[a.w])[0], u.made);
    DeliveredGrows(s.log, Sent(u.partitionOf, head.envelope));
  }

  lemma MarkSafe(u: Setup, s: State, a: Action)
    requires a.Mark? && Enabled(u, s, a) && Safe(u, s)
    ensures Safe(u, Do(u, s, a))
  {
    var queue := TailerOf(s, a.w).queue;
    if OutboxHeld(s.db, u.owner(a.w), queue[0].key) {
      var t := Do(u, s, a);
      MarkIsOutboxState(s.db, queue[0].key, a.now);
      OutboxStateKeepsSound(s.db, t.db, u.shard);
      forall i | 0 <= i < |queue[1..]| ensures GoodMessage(queue[1..][i], u.made) {
        assert GoodMessage(QueueOf(s.tailers[a.w])[i + 1], u.made);
      }
      OutboxStateKeepsTraced(u, s, t, a.w, Publishing(queue[1..]));
    }
  }

  lemma LocalStepSafe(u: Setup, s: State, a: Action)
    requires (a.Load? || a.Stop? || a.Foreign?) && Enabled(u, s, a) && Safe(u, s)
    ensures Safe(u, Do(u, s, a))
  {
    if a.Foreign? {
      DeliveredGrows(s.log, a.record);
    }
  }

  lemma RetentionSafe(u: Setup, s: State, a: Action)
    requires a.Retention? && Safe(u, s)
    ensures Safe(u, Do(u, s, a))
  {
    RetentionKeepsSound(s.db, u.shard, a.tenant, a.cutoff);
    RetentionSparesUndelivered(s.db, a.tenant, a.cutoff);
  }

  lemma TenantDeletionSafe(u: Setup, s: State, a: Action)
    requires a.TenantDeletion? && Safe(u, s)
    ensures Safe(u, Do(u, s, a))
  {
    TenantDeletionKeepsSound(s.db, u.shard, a.tenant);
  }

  lemma StepSafe(u: Setup, s: State, a: Action)
    requires MadeIsProcessable(u) && Enabled(u, s, a) && Safe(u, s)
    ensures Safe(u, Do(u, s, a))
  {
    match a
    case Stage(_, _, _, _, _) => StageSafe(u, s, a);
    case ClaimLeases(_, _, _, _, _, _, _) => ClaimLeasesSafe(u, s, a);
    case Conclude(_, _) => ConcludeSafe(u, s, a);
    case TakeMessages(_, _, _, _, _, _) => TakeMessagesSafe(u, s, a);
    case Publish(_, _) => PublishSafe(u, s, a);
    case Mark(_, _) => MarkSafe(u, s, a);
    case Retention(_, _) => RetentionSafe(u, s, a);
    case TenantDeletion(_) => TenantDeletionSafe(u, s, a);
    case _ => LocalStepSafe(u, s, a);
  }

  lemma {:induction false} RunSafe(u: Setup, s: State, actions: seq<Action>)
    requires MadeIsProcessable(u) && Safe(u, s) && Run(u, s, actions)
    ensures Safe(u, After(u, s, actions))
    decreases |actions|
  {
    if actions != [] {
      StepSafe(u, s, actions[0]);
      RunSafe(u, Do(u, s, actions[0]), actions[1..]);
    }
  }

  lemma InitiallySafe(u: Setup)
    ensures Safe(u, INITIAL)
  {
    forall tenant: string, n: Shard ensures |ActiveInShard(EMPTY, u.shard, tenant, n)| <= SHARD_TRACES {
      assert ActiveInShard(EMPTY, u.shard, tenant, n) == {};
    }
  }
}
