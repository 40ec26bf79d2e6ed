// The five PostgreSQL tables behind tail sampling, and each transaction of
// internal/metadata/tail.go as a function from tables to tables. What the
// database leaves open (which of several equally old rows comes first, which
// rows another transaction has locked, the order in which Go walks a map) is an
// argument of the function, and a predicate says which arguments are possible.
module TailTables {
  import opened Telemetry
  import opened Sampling

  const MAX_TRACES := 1000
  const MAX_SPANS := 200
  const LOCK_SHARDS := 10
  const SHARD_TRACES := MAX_TRACES / LOCK_SHARDS

  // hashtext(trace_id) modulo the number of lock shards.
  type Shard = n: nat | n < LOCK_SHARDS
  type Sharding = string -> Shard

  datatype TraceKey = TraceKey(tenant: string, trace: string)

  // lease_owner and lease_expires_at are always set and cleared together, and
  // so are decision and decided_at.
  datatype Lease = Free | Held(owner: string, expires: int)
  datatype Status = Undecided | Decided(reason: Reason, at: int)

  datatype TraceRow = TraceRow(firstSeen: int, lastSeen: int, generation: int, spanCount: nat, lease: Lease,
                               status: Status)
  datatype BufferRow = BufferRow(home: TraceKey, envelope: Envelope, receivedAt: int)
  // `origin` is a history variable, absent from the SQL table: the envelope with
  // which the key was registered. No transaction reads it.
  datatype KeyRow = KeyRow(home: TraceKey, createdAt: int, origin: Envelope)
  datatype DecisionRow = DecisionRow(reason: Reason, retained: bool, spanCount: nat, createdAt: int)
  datatype OutboxRow = OutboxRow(tenant: string, envelope: Envelope, attempts: nat, lease: Lease,
                                 publishedAt: Option<int>, createdAt: int)

  datatype Tables = Tables(
    traces: map<TraceKey, TraceRow>,
    buffers: map<string, BufferRow>,
    keys: map<string, KeyRow>,
    decisions: map<TraceKey, DecisionRow>,
    outbox: map<string, OutboxRow>)

  const EMPTY := Tables(map[], map[], map[], map[], map[])

  function BufferedIn(s: Tables, id: TraceKey): set<string> {
    set k | k in s.buffers && s.buffers[k].home == id
  }

  function RegisteredTo(s: Tables, id: TraceKey): set<string> {
    set k | k in s.keys && s.keys[k].home == id
  }

  predicate Active(s: Tables, id: TraceKey) {
    id in s.traces && s.traces[id].status.Undecided?
  }

  function ActiveInShard(s: Tables, shard: Sharding, tenant: string, n: Shard): set<TraceKey> {
    set id | id in s.traces && Active(s, id) && id.tenant == tenant && shard(id.trace) == n
  }

  // The rows "order by age asc limit n" selects, with rows of equal age in any
  // order; an "update ... returning" may list them in yet another one.
  ghost predicate OldestFew<T(!new)>(candidates: set<T>, age: T -> int, limit: nat, picked: seq<T>) {
    && |picked| <= limit
    && (forall i :: 0 <= i < |picked| ==> picked[i] in candidates)
    && (forall i, j :: 0 <= i < j < |picked| ==> picked[i] != picked[j])
    && (forall c :: c in candidates && c !in picked ==>
          |picked| == limit && forall i :: 0 <= i < |picked| ==> age(picked[i]) <= age(c))
  }

  ghost predicate OldestFirst<T(!new)>(candidates: set<T>, age: T -> int, limit: nat, picked: seq<T>) {
    && OldestFew(candidates, age, limit, picked)
    && forall i, j :: 0 <= i < j < |picked| ==> age(picked[i]) <= age(picked[j])
  }

  // A query whose limit is the number of candidates returns every one of them.
  lemma AllTaken<T(!new)>(candidates: set<T>, age: T -> int, picked: seq<T>)
    requires OldestFew(candidates, age, |candidates|, picked)
    ensures forall c :: c in picked <==> c in candidates
  {
    if c :| c in candidates && c !in picked {
      DistinctCount(picked);
      SubsetIsNoLarger((set p | p in picked) + {c}, candidates);
    }
  }

  lemma {:induction false} DistinctCount<T>(picked: seq<T>)
    requires forall i, j :: 0 <= i < j < |picked| ==> picked[i] != picked[j]
    ensures |set p | p in picked| == |picked|
  {
    if picked != [] {
      DistinctCount(picked[1..]);
      assert (set p | p in picked) == {picked[0]} + (set p | p in picked[1..]);
      assert picked[0] !in picked[1..];
    }
  }

  // ---------- staging ----------

  datatype StageError = TenantMissing | CrossesTenants | BufferFull | TraceClosed | DuplicateKey
  datatype Staged = Accepted(tables: Tables) | Refused(error: StageError)

  function TailTraceId(e: Envelope): string {
    if e.event.traceId != "" then e.event.traceId else "unlinked-log:" + e.event.eventId
  }

  function KeysOf(es: seq<Envelope>): set<string> {
    set e | e in es :: e.eventKey
  }

  predicate DistinctKeys(es: seq<Envelope>) {
    forall i, j :: 0 <= i < j < |es| ==> es[i].eventKey != es[j].eventKey
  }

  function FreshEnvelopes(keys: map<string, KeyRow>, es: seq<Envelope>): seq<Envelope> {
    if es == [] then []
    else (if es[0].eventKey in keys then [] else [es[0]]) + FreshEnvelopes(keys, es[1..])
  }

  function Index(es: seq<Envelope>): (m: map<string, Envelope>)
    ensures m.Keys == KeysOf(es)
    ensures forall k :: k in m ==> m[k] in es && m[k].eventKey == k
  {
    if es == [] then map[] else map[es[0].eventKey := es[0]] + Index(es[1..])
  }

  function WithoutBuffersOf(s: Tables, id: TraceKey): map<string, BufferRow> {
    s.buffers - BufferedIn(s, id)
  }

  function Closed(row: TraceRow, reason: Reason, now: int, count: nat): TraceRow {
    row.(status := Decided(reason, now), lease := Free, spanCount := count)
  }

  function Evict(s: Tables, id: TraceKey, reason: Reason, now: int): Tables
    requires id in s.traces
  {
    var count := |BufferedIn(s, id)|;
    s.(buffers := WithoutBuffersOf(s, id),
       traces := if Active(s, id) then s.traces[id := Closed(s.traces[id], reason, now, count)] else s.traces,
       decisions := if id in s.decisions then s.decisions
                    else s.decisions[id := DecisionRow(reason, false, count, now)])
  }

  function Opened(s: Tables, now: int, id: TraceKey): Tables {
    s.(traces := s.traces[id := TraceRow(now, now, 1, 0, Free, Undecided)])
  }

  predicate HasRoom(s: Tables, shard: Sharding, id: TraceKey) {
    |ActiveInShard(s, shard, id.tenant, shard(id.trace))| < SHARD_TRACES
  }

  function Admit(s: Tables, shard: Sharding, now: int, id: TraceKey, victim: Option<TraceKey>): (r: Staged)
    ensures r.Accepted? ==> id in r.tables.traces
  {
    if HasRoom(s, shard, id) then Accepted(Opened(s, now, id))
    else if victim.None? || victim.value !in s.traces then Refused(BufferFull)
    else Accepted(Opened(Evict(s, victim.value, EvictedPressure, now), now, id))
  }

  // The inserts of one staging, one row per fresh key.
  ghost function WithKeyRows(keys: map<string, KeyRow>, added: map<string, Envelope>, id: TraceKey,
                             now: int): (r: map<string, KeyRow>)
    ensures forall k :: k in r <==> k in keys || k in added
    ensures forall k :: k in added ==> r[k] == KeyRow(id, now, added[k])
    ensures forall k :: k in keys && k !in added ==> r[k] == keys[k]
    decreases |added|
  {
    if |added| == 0 then keys
    else
      var k :| k in added;
      WithKeyRows(keys, added - {k}, id, now)[k := KeyRow(id, now, added[k])]
  }

  ghost function WithBufferRows(buffers: map<string, BufferRow>, added: map<string, Envelope>, id: TraceKey,
                                now: int): (r: map<string, BufferRow>)
    ensures forall k :: k in r <==> k in buffers || k in added
    ensures forall k :: k in added ==> r[k] == BufferRow(id, added[k], now)
    ensures forall k :: k in buffers && k !in added ==> r[k] == buffers[k]
    decreases |added|
  {
    if |added| == 0 then buffers
    else
      var k :| k in added;
      WithBufferRows(buffers, added - {k}, id, now)[k := BufferRow(id, added[k], now)]
  }

  function Grown(row: TraceRow, now: int, more: nat): TraceRow {
    row.(lastSeen := now, generation := row.generation + 1, spanCount := row.spanCount + more)
  }

  ghost function Registered(s: Tables, now: int, id: TraceKey, added: map<string, Envelope>): Tables
    requires id in s.traces
  {
    s.(keys := WithKeyRows(s.keys, added, id, now),
       buffers := WithBufferRows(s.buffers, added, id, now),
       traces := s.traces[id := Grown(s.traces[id], now, |added|)])
  }

  // The primary key of tail_buffers admits the rows.
  ghost predicate Insertable(buffers: map<string, BufferRow>, added: seq<Envelope>) {
    DistinctKeys(added) && forall e :: e in added ==> e.eventKey !in buffers
  }

  ghost function AddSpans(s: Tables, now: int, id: TraceKey, es: seq<Envelope>): Staged
    requires id in s.traces
  {
    var added := FreshEnvelopes(s.keys, es);
    if added == [] then Accepted(s)
    else if s.traces[id].spanCount + |KeysOf(added)| > MAX_SPANS then Refused(TraceClosed)
    else if !Insertable(s.buffers, added) then Refused(DuplicateKey)
    else Accepted(Registered(s, now, id, Index(added)))
  }

  predicate KnownTo(s: Tables, id: TraceKey, key: string) {
    key in s.keys && s.keys[key].home == id
  }

  ghost function StageTrace(s: Tables, shard: Sharding, now: int, id: TraceKey, es: seq<Envelope>,
                            victim: Option<TraceKey>): Staged {
    if id !in s.traces then
      match Admit(s, shard, now, id, victim)
      case Refused(error) => Refused(error)
      case Accepted(t) => AddSpans(t, now, id, es)
    else if s.traces[id].status.Decided? then
      if forall e :: e in es ==> KnownTo(s, id, e.eventKey) then Accepted(s) else Refused(TraceClosed)
    else AddSpans(s, now, id, es)
  }

  // The row that "order by first_seen asc for update skip locked limit 1" returns.
  ghost predicate LegitVictim(s: Tables, shard: Sharding, locked: set<TraceKey>, id: TraceKey,
                              victim: Option<TraceKey>) {
    if id in s.traces || HasRoom(s, shard, id) then victim.None?
    else
      var candidates := ActiveInShard(s, shard, id.tenant, shard(id.trace)) - locked;
      match victim
      case None => candidates == {}
      case Some(v) => v in candidates && forall u :: u in candidates ==> s.traces[v].firstSeen <= s.traces[u].firstSeen
  }

  datatype Group = Group(trace: string, envelopes: seq<Envelope>)

  // The rows other transactions hold while the group of a trace is staged.
  type Locks = string -> set<TraceKey>

  function NoLocks(trace: string): set<TraceKey> {
    {}
  }

  ghost function StageGroups(s: Tables, shard: Sharding, now: int, tenant: string, groups: seq<Group>,
                             victims: seq<Option<TraceKey>>): Staged
    requires |groups| == |victims|
    decreases |groups|
  {
    if groups == [] then Accepted(s)
    else
      match StageTrace(s, shard, now, TraceKey(tenant, groups[0].trace), groups[0].envelopes, victims[0])
      case Refused(error) => Refused(error)
      case Accepted(t) => StageGroups(t, shard, now, tenant, groups[1..], victims[1..])
  }

  ghost predicate LegitVictims(s: Tables, shard: Sharding, now: int, locks: Locks, tenant: string,
                               groups: seq<Group>, victims: seq<Option<TraceKey>>)
    requires |groups| == |victims|
    decreases |groups|
  {
    if groups == [] then true
    else
      var id := TraceKey(tenant, groups[0].trace);
      && LegitVictim(s, shard, locks(groups[0].trace), id, victims[0])
      && match StageTrace(s, shard, now, id, groups[0].envelopes, victims[0])
         case Refused(_) => true
         case Accepted(t) => LegitVictims(t, shard, now, locks, tenant, groups[1..], victims[1..])
  }

  function OfTrace(batch: seq<Envelope>, trace: string): seq<Envelope> {
    if batch == [] then []
    else (if TailTraceId(batch[0]) == trace then [batch[0]] else []) + OfTrace(batch[1..], trace)
  }

  function TracesOf(batch: seq<Envelope>): set<string> {
    set e | e in batch :: TailTraceId(e)
  }

  // One group per trace of the batch, in any order.
  ghost predicate Grouping(batch: seq<Envelope>, groups: seq<Group>) {
    && (forall i, j :: 0 <= i < j < |groups| ==> groups[i].trace != groups[j].trace)
    && (forall i :: 0 <= i < |groups| ==> groups[i].trace in TracesOf(batch))
    && (forall t :: t in TracesOf(batch) ==> exists i :: 0 <= i < |groups| && groups[i].trace == t)
    && (forall i :: 0 <= i < |groups| ==> groups[i].envelopes == OfTrace(batch, groups[i].trace))
  }

  ghost function StageBatch(s: Tables, shard: Sharding, now: int, batch: seq<Envelope>, groups: seq<Group>,
                            victims: seq<Option<TraceKey>>): Staged
    requires |groups| == |victims|
  {
    if batch == [] then Accepted(s)
    else if batch[0].tenantId == "" then Refused(TenantMissing)
    else if exists i :: 0 <= i < |batch| && batch[i].tenantId != batch[0].tenantId then Refused(CrossesTenants)
    else StageGroups(s, shard, now, batch[0].tenantId, groups, victims)
  }

  // ---------- leasing and deciding ----------

  datatype TraceLease = TraceLease(id: TraceKey, generation: int)

  predicate LeaseFree(lease: Lease, now: int) {
    lease.Free? || lease.expires < now
  }

  function Claimable(s: Tables, now: int, quiet: int, locked: set<TraceKey>): set<TraceKey> {
    set id | id in s.traces && Active(s, id) && s.traces[id].lastSeen <= now - quiet
             && LeaseFree(s.traces[id].lease, now) && id !in locked
  }

  function LastSeen(s: Tables): TraceKey -> int {
    id => if id in s.traces then s.traces[id].lastSeen else 0
  }

  function AtLeastOne(limit: int): nat {
    if limit < 1 then 1 else limit
  }

  ghost predicate LegitClaim(s: Tables, now: int, quiet: int, limit: int, locked: set<TraceKey>, ids: seq<TraceKey>) {
    OldestFew(Claimable(s, now, quiet, locked), LastSeen(s), AtLeastOne(limit), ids)
  }

  ghost function WithLeases(traces: map<TraceKey, TraceRow>, ids: seq<TraceKey>,
                            lease: Lease): (r: map<TraceKey, TraceRow>)
    ensures r.Keys == traces.Keys
    ensures forall id :: id in traces ==> r[id] == if id in ids then traces[id].(lease := lease) else traces[id]
  {
    if ids == [] then traces
    else
      var rest := WithLeases(traces, ids[1..], lease);
      if ids[0] in rest then rest[ids[0] := rest[ids[0]].(lease := lease)] else rest
  }

  ghost function ClaimTraces(s: Tables, ids: seq<TraceKey>, owner: string, until: int): Tables {
    s.(traces := WithLeases(s.traces, ids, Held(owner, until)))
  }

  function LeasesFor(s: Tables, ids: seq<TraceKey>): (leases: seq<TraceLease>)
    requires forall id :: id in ids ==> id in s.traces
    ensures |leases| == |ids|
    ensures forall i :: 0 <= i < |ids| ==> leases[i].id == ids[i] && leases[i].generation == s.traces[ids[i]].generation
  {
    if ids == [] then []
    else [TraceLease(ids[0], s.traces[ids[0]].generation)] + LeasesFor(s, ids[1..])
  }

  function ReceivedAt(s: Tables): string -> int {
    k => if k in s.buffers then s.buffers[k].receivedAt else 0
  }

  // `spans` are the rows of one trace buffer, whose keys in order are `order`.
  ghost predicate LoadedAs(s: Tables, id: TraceKey, order: seq<string>, spans: seq<Envelope>) {
    && |order| == |spans|
    && OldestFirst(BufferedIn(s, id), ReceivedAt(s), |BufferedIn(s, id)|, order)
    && (forall i :: 0 <= i < |order| ==> spans[i] == s.buffers[order[i]].envelope)
  }

  datatype Recorded = Applied(tables: Tables) | Stale | UniqueViolation

  predicate StillLeased(s: Tables, owner: string, lease: TraceLease) {
    && lease.id in s.traces
    && s.traces[lease.id].lease.Held?
    && s.traces[lease.id].lease.owner == owner
    && s.traces[lease.id].status.Undecided?
    && s.traces[lease.id].generation == lease.generation
  }

  // "insert ... on conflict (event_key) do nothing" for each key.
  ghost function WithOutboxRows(outbox: map<string, OutboxRow>, buffers: map<string, BufferRow>, keys: set<string>,
                                tenant: string, now: int): (r: map<string, OutboxRow>)
    requires keys <= buffers.Keys
    ensures forall k :: k in r <==> k in outbox || k in keys
    ensures forall k :: k in outbox ==> r[k] == outbox[k]
    ensures forall k :: k in keys && k !in outbox ==> r[k] == OutboxRow(tenant, buffers[k].envelope, 0, Free, None, now)
    decreases |keys|
  {
    if keys == {} then outbox
    else
      var k :| k in keys;
      var rest := WithOutboxRows(outbox, buffers, keys - {k}, tenant, now);
      if k in rest then rest else rest[k := OutboxRow(tenant, buffers[k].envelope, 0, Free, None, now)]
  }

  ghost function MovedToOutbox(s: Tables, id: TraceKey, now: int): map<string, OutboxRow> {
    WithOutboxRows(s.outbox, s.buffers, BufferedIn(s, id), id.tenant, now)
  }

  ghost function RecordDecision(s: Tables, owner: string, lease: TraceLease, reason: Reason, retained: bool,
                                now: int): Recorded {
    var id := lease.id;
    if !StillLeased(s, owner, lease) then Stale
    else if id in s.decisions then UniqueViolation
    else
      var count := |BufferedIn(s, id)|;
      Applied(s.(outbox := if retained then MovedToOutbox(s, id, now) else s.outbox,
                 buffers := WithoutBuffersOf(s, id),
                 traces := s.traces[id := Closed(s.traces[id], reason, now, count)],
                 decisions := s.decisions[id := DecisionRow(reason, retained, count, now)]))
  }

  // ---------- the outbox ----------

  datatype Message = Message(key: string, envelope: Envelope)

  function Publishable(s: Tables, now: int, locked: set<string>): set<string> {
    set k | k in s.outbox && s.outbox[k].publishedAt.None? && LeaseFree(s.outbox[k].lease, now) && k !in locked
  }

  function CreatedAt(s: Tables): string -> int {
    k => if k in s.outbox then s.outbox[k].createdAt else 0
  }

  ghost predicate LegitOutboxClaim(s: Tables, now: int, limit: int, locked: set<string>, picked: seq<string>) {
    OldestFew(Publishable(s, now, locked), CreatedAt(s), AtLeastOne(limit), picked)
  }

  ghost function WithAttempts(outbox: map<string, OutboxRow>, picked: seq<string>,
                              lease: Lease): (r: map<string, OutboxRow>)
    ensures r.Keys == outbox.Keys
    ensures forall k :: k in outbox ==>
              r[k] == if k in picked then outbox[k].(lease := lease, attempts := outbox[k].attempts + 1) else outbox[k]
  {
    if picked == [] then outbox
    else
      var rest := WithAttempts(outbox, picked[1..], lease);
      var k := picked[0];
      if k in outbox then rest[k := outbox[k].(lease := lease, attempts := outbox[k].attempts + 1)] else rest
  }

  ghost function ClaimOutbox(s: Tables, picked: seq<string>, owner: string, until: int): Tables {
    s.(outbox := WithAttempts(s.outbox, picked, Held(owner, until)))
  }

  function MessagesFor(s: Tables, picked: seq<string>): (messages: seq<Message>)
    requires forall k :: k in picked ==> k in s.outbox
    ensures |messages| == |picked|
    ensures forall i :: 0 <= i < |picked| ==>
              messages[i].key == picked[i] && messages[i].envelope == s.outbox[picked[i]].envelope
  {
    if picked == [] then []
    else [Message(picked[0], s.outbox[picked[0]].envelope)] + MessagesFor(s, picked[1..])
  }

  predicate OutboxHeld(s: Tables, owner: string, key: string) {
    && key in s.outbox
    && s.outbox[key].publishedAt.None?
    && s.outbox[key].lease.Held?
    && s.outbox[key].lease.owner == owner
  }

  function MarkPublished(s: Tables, key: string, now: int): Tables
    requires key in s.outbox
  {
    s.(outbox := s.outbox[key := s.outbox[key].(publishedAt := Some(now), lease := Free)])
  }

  // ---------- deletion ----------

  function ExpiredTraces(traces: map<TraceKey, TraceRow>, tenant: string, cutoff: int): set<TraceKey> {
    set id | id in traces && id.tenant == tenant && traces[id].status.Decided? && traces[id].status.at < cutoff
  }

  function TracesOfTenant(traces: map<TraceKey, TraceRow>, tenant: string): set<TraceKey> {
    set id | id in traces && id.tenant == tenant
  }

  // "on delete cascade": the buffer rows that deleting the traces takes along.
  function Owned(buffers: map<string, BufferRow>, ids: set<TraceKey>): set<string> {
    set k | k in buffers && buffers[k].home in ids
  }

  function ExpiredKeys(keys: map<string, KeyRow>, tenant: string, cutoff: int): set<string> {
    set k | k in keys && keys[k].home.tenant == tenant && keys[k].createdAt < cutoff
  }

  function KeysOfTenant(keys: map<string, KeyRow>, tenant: string): set<string> {
    set k | k in keys && keys[k].home.tenant == tenant
  }

  function ExpiredDecisions(decisions: map<TraceKey, DecisionRow>, tenant: string, cutoff: int): set<TraceKey> {
    set id | id in decisions && id.tenant == tenant && decisions[id].createdAt < cutoff
  }

  function DecisionsOfTenant(decisions: map<TraceKey, DecisionRow>, tenant: string): set<TraceKey> {
    set id | id in decisions && id.tenant == tenant
  }

  function ExpiredMessages(outbox: map<string, OutboxRow>, tenant: string, cutoff: int): set<string> {
    set k | k in outbox && outbox[k].tenant == tenant && outbox[k].publishedAt.Some? && outbox[k].createdAt < cutoff
  }

  function MessagesOfTenant(outbox: map<string, OutboxRow>, tenant: string): set<string> {
    set k | k in outbox && outbox[k].tenant == tenant
  }

  function DeleteBefore(s: Tables, tenant: string, cutoff: int): Tables {
    var traces := ExpiredTraces(s.traces, tenant, cutoff);
    Tables(
      s.traces - traces,
      s.buffers - Owned(s.buffers, traces),
      s.keys - ExpiredKeys(s.keys, tenant, cutoff),
      s.decisions - ExpiredDecisions(s.decisions, tenant, cutoff),
      s.outbox - ExpiredMessages(s.outbox, tenant, cutoff))
  }

  function DeleteTenant(s: Tables, tenant: string): Tables {
    var traces := TracesOfTenant(s.traces, tenant);
    Tables(
      s.traces - traces,
      s.buffers - Owned(s.buffers, traces),
      s.keys - KeysOfTenant(s.keys, tenant),
      s.decisions - DecisionsOfTenant(s.decisions, tenant),
      s.outbox - MessagesOfTenant(s.outbox, tenant))
  }
}
