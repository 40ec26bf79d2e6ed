// Gateways, tail workers, retention jobs and the broker as one state machine.
// Each transaction of TailTables is one atomic step; a worker's memory is one
// claimed batch and may vanish between any two steps (internal/tail/runner.go).
module TailMachine {
  import opened Telemetry
  import opened Sampling
  import opened TailTables
  import opened Broker

  // `made` is any fact the gateways establish about each envelope they stage.
  datatype Setup = Setup(
    shard: Sharding,
    config: Config,
    owner: nat -> string,
    partitionOf: Partitioning,
    made: Envelope -> bool)

  // Deciding and Loaded hold the leases not yet dealt with; the spans (and the
  // row keys they were read under) belong to the first one. Publishing holds the
  // messages not yet sent; in Acknowledged the broker has taken the first one.
  datatype Tailer =
    | Idle
    | Deciding(todo: seq<TraceLease>)
    | Loaded(todo: seq<TraceLease>, order: seq<string>, spans: seq<Envelope>)
    | Publishing(queue: seq<Message>)
    | Acknowledged(queue: seq<Message>)

  // `acked`, `dropped` and `erased` are history: keys of acknowledged batches,
  // keys covered at some moment by a durable non-retained decision, and keys a
  // tenant asked to delete; registering a key anew takes it off the last two.
  datatype State = State(
    db: Tables,
    tailers: map<nat, Tailer>,
    log: seq<Record>,
    acked: set<string>,
    dropped: set<string>,
    erased: set<string>)

  const INITIAL := State(EMPTY, map[], [], {}, {}, {})

  function TailerOf(s: State, w: nat): Tailer {
    if w in s.tailers then s.tailers[w] else Idle
  }

  datatype Action =
    | Stage(now: int, locks: Locks, batch: seq<Envelope>, groups: seq<Group>, victims: seq<Option<TraceKey>>)
    | ClaimLeases(w: nat, now: int, quiet: int, ttl: int, limit: int, lockedTraces: set<TraceKey>, ids: seq<TraceKey>)
    | Load(w: nat, order: seq<string>, spans: seq<Envelope>)
    | Conclude(w: nat, now: int)
    | TakeMessages(w: nat, now: int, ttl: int, limit: int, lockedKeys: set<string>, picked: seq<string>)
    | Publish(w: nat, reported: bool)
    | Mark(w: nat, now: int)
    | Stop(w: nat)
    | Foreign(record: Record)
    | Retention(tenant: string, cutoff: int)
    | TenantDeletion(tenant: string)

  predicate Deletes(a: Action) {
    a.Retention? || a.TenantDeletion?
  }

  ghost predicate Enabled(u: Setup, s: State, a: Action) {
    match a
    case Stage(now, locks, batch, groups, victims) =>
      && |groups| == |victims| && Grouping(batch, groups)
      && (batch != [] ==> LegitVictims(s.db, u.shard, now, locks, batch[0].tenantId, groups, victims))
      && (forall e :: e in batch ==> u.made(e))
    case ClaimLeases(w, now, quiet, ttl, limit, locked, ids) =>
      TailerOf(s, w).Idle? && LegitClaim(s.db, now, quiet, limit, locked, ids)
    case Load(w, order, spans) =>
      var t := TailerOf(s, w);
      t.Deciding? && t.todo != [] && LoadedAs(s.db, t.todo[0].id, order, spans)
    case Conclude(w, now) =>
      TailerOf(s, w).Loaded? && TailerOf(s, w).todo != []
    case TakeMessages(w, now, ttl, limit, locked, picked) =>
      TailerOf(s, w).Deciding? && TailerOf(s, w).todo == [] && LegitOutboxClaim(s.db, now, limit, locked, picked)
    case Publish(w, reported) =>
      TailerOf(s, w).Publishing? && TailerOf(s, w).queue != []
    case Mark(w, now) =>
      TailerOf(s, w).Acknowledged? && TailerOf(s, w).queue != []
    case Stop(w) => true
    case Foreign(record) => !Processable(record)
    case Retention(tenant, cutoff) => true
    case TenantDeletion(tenant) => true
  }

  predicate DecidedAgainst(s: Tables, id: TraceKey) {
    id in s.decisions && !s.decisions[id].retained
  }

  // Keys for which the step leaves a non-retained decision row as evidence.
  function RuledOut(before: Tables, after: Tables): set<string> {
    (set k | k in before.buffers && DecidedAgainst(after, before.buffers[k].home))
    + (set k | k in after.keys && DecidedAgainst(after, after.keys[k].home))
  }

  function VerdictOf(u: Setup, t: Tailer): Sampling.Decision
    requires t.Loaded? && t.todo != []
  {
    Decide(t.todo[0].id.trace, t.spans, u.config)
  }

  ghost function Do(u: Setup, s: State, a: Action): State
    requires Enabled(u, s, a)
  {
    match a
    case Stage(now, _, batch, groups, victims) =>
      (match StageBatch(s.db, u.shard, now, batch, groups, victims)
       case Refused(_) => s
       case Accepted(t) =>
         var registered := t.keys.Keys - s.db.keys.Keys;
         s.(db := t,
            acked := s.acked + KeysOf(batch),
            dropped := (s.dropped - registered) + RuledOut(s.db, t),
            erased := s.erased - registered))
    case ClaimLeases(w, now, quiet, ttl, limit, locked, ids) =>
      s.(db := ClaimTraces(s.db, ids, u.owner(w), now + ttl),
         tailers := s.tailers[w := Deciding(LeasesFor(s.db, ids))])
    case Load(w, order, spans) =>
      s.(tailers := s.tailers[w := Loaded(TailerOf(s, w).todo, order, spans)])
    case Conclude(w, now) =>
      var t := TailerOf(s, w);
      var d := VerdictOf(u, t);
      (match RecordDecision(s.db, u.owner(w), t.todo[0], d.reason, d.retained, now)
       case Applied(db) =>
         s.(db := db, tailers := s.tailers[w := Deciding(t.todo[1..])], dropped := s.dropped + RuledOut(s.db, db))
       case Stale => s.(tailers := s.tailers[w := Deciding(t.todo[1..])])
       case UniqueViolation => s.(tailers := s.tailers[w := Idle]))
    case TakeMessages(w, now, ttl, limit, locked, picked) =>
      s.(db := ClaimOutbox(s.db, picked, u.owner(w), now + ttl),
         tailers := s.tailers[w := Publishing(MessagesFor(s.db, picked))])
    case Publish(w, reported) =>
      var queue := TailerOf(s, w).queue;
      s.(log := s.log + [Sent(u.partitionOf, queue[0].envelope)],
         tailers := s.tailers[w := if reported then Acknowledged(queue) else Idle])
    case Mark(w, now) =>
      var queue := TailerOf(s, w).queue;
      if OutboxHeld(s.db, u.owner(w), queue[0].key) then
        s.(db := MarkPublished(s.db, queue[0].key, now), tailers := s.tailers[w := Publishing(queue[1..])])
      else s.(tailers := s.tailers[w := Idle])
    case Stop(w) => s.(tailers := s.tailers[w := Idle])
    case Foreign(record) => s.(log := s.log + [record])
    case Retention(tenant, cutoff) => s.(db := DeleteBefore(s.db, tenant, cutoff))
    case TenantDeletion(tenant) =>
      var t := DeleteTenant(s.db, tenant);
      s.(db := t, erased := s.erased + (s.db.buffers.Keys - t.buffers.Keys) + (s.db.outbox.Keys - t.outbox.Keys))
  }

  // ---------- what a claim may pick ----------

  lemma LegitClaimIsActive(s: Tables, now: int, quiet: int, limit: int, locked: set<TraceKey>, ids: seq<TraceKey>)
    requires LegitClaim(s, now, quiet, limit, locked, ids)
    ensures forall id :: id in ids ==> Active(s, id)
  {
    forall id | id in ids ensures Active(s, id) {
      assert id in Claimable(s, now, quiet, locked);
    }
  }

  lemma LegitOutboxClaimIsUnpublished(s: Tables, now: int, limit: int, locked: set<string>, picked: seq<string>)
    requires LegitOutboxClaim(s, now, limit, locked, picked)
    ensures forall k :: k in picked ==> k in s.outbox && s.outbox[k].publishedAt.None?
    ensures forall i, j :: 0 <= i < j < |picked| ==> picked[i] != picked[j]
  {
    forall k | k in picked ensures k in s.outbox && s.outbox[k].publishedAt.None? {
      assert k in Publishable(s, now, locked);
    }
  }

  // A step that changes nothing but the tables and one worker.
  predicate TurnOf(s: State, t: State, w: nat, db: Tables, x: Tailer) {
    && t.db == db && t.tailers == s.tailers[w := x]
    && t.log == s.log && t.acked == s.acked && t.dropped == s.dropped && t.erased == s.erased
  }

  lemma ClaimLeasesEffect(u: Setup, s: State, a: Action)
    requires a.ClaimLeases? && Enabled(u, s, a)
    ensures forall id :: id in a.ids ==> id in s.db.traces && Active(s.db, id)
    ensures TurnOf(s, Do(u, s, a), a.w, ClaimTraces(s.db, a.ids, u.owner(a.w), a.now + a.ttl),
                   Deciding(LeasesFor(s.db, a.ids)))
  {
    hide LegitClaim, LegitOutboxClaim, LoadedAs, Grouping, LegitVictims, StageBatch, ClaimTraces, ClaimOutbox;
    hide RecordDecision, DeleteBefore, DeleteTenant, RuledOut;
    LegitClaimIsActive(s.db, a.now, a.quiet, a.limit, a.lockedTraces, a.ids);
  }

  lemma TakeMessagesEffect(u: Setup, s: State, a: Action)
    requires a.TakeMessages? && Enabled(u, s, a)
    ensures forall k :: k in a.picked ==> k in s.db.outbox && s.db.outbox[k].publishedAt.None?
    ensures forall i, j :: 0 <= i < j < |a.picked| ==> a.picked[i] != a.picked[j]
    ensures TurnOf(s, Do(u, s, a), a.w, ClaimOutbox(s.db, a.picked, u.owner(a.w), a.now + a.ttl),
                   Publishing(MessagesFor(s.db, a.picked)))
  {
    hide LegitClaim, LegitOutboxClaim, LoadedAs, Grouping, LegitVictims, StageBatch, ClaimTraces, ClaimOutbox;
    hide RecordDecision, DeleteBefore, DeleteTenant, RuledOut;
    LegitOutboxClaimIsUnpublished(s.db, a.now, a.limit, a.lockedKeys, a.picked);
  }

  // ---------- runs ----------

  ghost predicate Run(u: Setup, s: State, actions: seq<Action>)
    decreases |actions|
  {
    actions != [] ==> Enabled(u, s, actions[0]) && Run(u, Do(u, s, actions[0]), actions[1..])
  }

  ghost function After(u: Setup, s: State, actions: seq<Action>): State
    requires Run(u, s, actions)
    decreases |actions|
  {
    if actions == [] then s else After(u, Do(u, s, actions[0]), actions[1..])
  }

  predicate DeletionFree(actions: seq<Action>) {
    forall i :: 0 <= i < |actions| ==> !Deletes(actions[i])
  }
}
