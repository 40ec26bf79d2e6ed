# Verified model of the tail-sampling and delivery pipeline

The platform accepts tenant telemetry, removes sensitive attributes, buffers each
trace durably, decides once per trace whether to keep it, and delivers what was
kept to a store that shows each event once. Its headline promise is that nothing
acknowledged is lost without evidence and that duplicates have no visible effect.
This project models the code behind that promise and proves it, for every run of
any number of interleaved gateways, tail workers, persistence workers, retention
jobs and tenant deletions, with crashes at any point and clocks that jump.

## How it is built

Four layers, each tied to the next.

- **Transactions as functions.** `TailTables` gives each transaction of
  `internal/metadata/tail.go` as a function from the five tables to the five
  tables. What the database leaves open (the order of equally old rows, rows
  locked by someone else, the order in which Go walks a map) is an argument, and
  a predicate such as `LegitVictim` or `OldestFew` says which arguments are
  possible. `Ledger` does the same for the delivery ledger.
- **The code itself.** `TailStore.Store`, `Runner.Runner`, `Consumer.Consumer`,
  `Streaming.Sampler`, `Gateway.Gateway`, `PolicyCache.CachedPolicyResolver` and
  the loops of `Redaction` and `Otlp` are classes and methods that work step by
  step like the source. Each is proved to have the effect its function gives, and
  the workers and gateways are proved to take only steps of the state machines
  below, wherever they stop.
- **What the rows say.** `TailLaws`, `StagingCases`, `RowLaws`, `Rounds` and
  `OtlpFields` say what those functions and methods do in the columns of the tables
  and the fields of the events, with every limit as a number: which rows a
  transaction may take, what it writes into them, and that it leaves the others.
- **Whole runs.** `TailMachine` (gateways, tail workers, broker, retention,
  deletion) and `Delivery` (persistence workers) are state machines over those
  functions; `Pipeline` composes them. `TailInvariants`, `TailSafety` and
  `Delivery` hold the invariants of all runs, `TailExact` the stronger ones of
  runs without deletion, and `FirstDelivery` what the placement of keys on
  partitions adds, and `TailSends` how often a message is sent. `History` ties times
  and history sets to the actions of the run. `Guarantees` states the promises;
  `TailOwners`, `TailReasons`, `Tenancy`, `TailOrder`, `ReachableOrder`,
  `TailProgress`, `Admission`, `PolicyRecency` and `Refinement` state the rest.

The tables carry one history column, `KeyRow.origin`, the envelope with which a
key was registered; no transaction reads it. The machine states carry history
sets of acknowledged, dropped and erased keys, and the policy cache the last valid
answer of its source. The number of partitions is fixed, so a key always hashes to
the same one. Time is an integer. Strings are
sequences of characters that stand for bytes, so lengths are byte lengths. The
FNV-1a hash, the shard hash, the conversion of `duration_ms`, regular
expressions, Unicode lower-casing and the digest of a log identity are functions
the model is given, about which it assumes nothing.

## Where the code does not meet its own description

- `internal/metadata/tail.go:51-54` calls span-limit evictions durable decisions.
  The code refuses the batch and rolls back instead (`tail.go:162-164`), and no
  reachable decision gives that reason (`TailReasons.ReasonsAreRecordable`).
- `internal/metadata/tail.go:25-27` says the generation keeps a worker from
  deciding a trace that changed. It does in runs without deletion, and with
  deletion exactly when worker names are distinct
  (`TailOwners.FreshExactlyForDistinctOwners`): a deleted trace is created again
  with a small generation, and a worker of the same name may decide it on spans
  of the old one. `scripts/run-benchmark.sh:23` starts two workers of one name.
- `internal/telemetry/consumer.go:38-40` says a malformed message stays
  unacknowledged. The code records a dead letter and commits.
- A record of a tenant that does not exist can be neither claimed nor
  dead-lettered, because both tables refer to `tenants`; its partition waits
  exactly until the tenant is created (`Guarantees.AdmittedExactlyWithTheTenant`).
- Event keys join tenant and event identifier with a colon
  (`internal/ingest/gateway.go:197`). A tenant's staging is independent of another
  tenant's rows exactly when neither identifier continues the other with a colon
  (`Tenancy.IndependentExactly`), and so are its decisions
  (`Tenancy.DecisionIndependentExactly`); otherwise an event of either one can be
  acknowledged and stored nowhere (`Tenancy.CollidingEventIsDropped`), or be lost
  when its trace is decided (`Tenancy.TakenKeyLosesMessage`). The same join makes
  JSON span identifiers ambiguous (`Otlp.JsonSpanIdsCollideExactly`).
- `internal/ingest/otlp.go:106-109` derives a log's identifier from trace, span, time
  and position in the request alone. Two logs of different requests that agree on
  these four share a key whatever their bodies say
  (`Otlp.NormalizedLogsAreIdentified`), and the later one is acknowledged but not
  stored (`TailEffects.KnownBatchStoresNothing`).
- Go walks the traces of a batch in any order. With room for the new traces the
  outcome is the same for every order exactly when each key that two traces share
  is repeated within each of them (`TailOrder.OrderIndependentExactly`); a shared
  key that is not repeated goes to whichever trace comes first. The condition is
  exact for the states that runs reach as well (`Gateway.OrderMattersInGatewayRuns`).
- `internal/sampling/sampler.go:116-126` uses the empty identifier for "none
  yet". It evicts an earliest trace except exactly when a trace with an empty
  identifier is open and strictly older than each of the others
  (`Streaming.EvictionPicksEarliestExactly`).
- `internal/ingest/policy_cache.go:18-20` promises the last valid policy. Entries
  and answers are the last valid ones exactly when no two refreshes of one tenant
  overlap (`PolicyRecency.CacheIsRecentExactly`). Overlapping ones may leave the
  older answer in the cache, and one that fails may serve an entry that another
  has already replaced.

## Model

| member | source | states |
|---|---|---|
| Guarantees.NoSilentLoss | internal/metadata/tail.go:62-345 | at the end of every run, each key of a batch that some staging acknowledged is buffered in an undecided trace, awaits publishing, or is in the log; or a step of the run recorded a non-retained decision against its trace, or a step was a deletion for the tenant of the key's own row, and the key was not registered anew since. Below a committed offset each record has a final ledger row or a dead letter, and persisted means stored |
| Guarantees.TenantDeletionIsExact | internal/metadata/tail.go:439-456 | in every reachable state, deleting a tenant leaves no row of it in any of the five tables and every row of every other tenant as it was |
| History.AcknowledgedIsAcked | internal/metadata/tail.go:62-91 | at every point of every run, a key counts as acknowledged exactly if an earlier staging accepted a batch that holds it |
| History.DroppedHasEvidence | internal/metadata/tail.go:216-229 | at every point of every run, a key counts as dropped only if an earlier step came with a non-retained decision row on its trace and it was not registered anew since |
| History.ErasedHasEvidence | internal/metadata/tail.go:439-456 | at every point of every run, a key counts as erased only if an earlier step was a deletion for the tenant of its own buffer or outbox row and it was not registered anew since |
| History.FirstSeenIsOpening | db/migrations/0004_tail_sampling.sql:1-12 | in every run, `first_seen` of a trace row is the clock of the staging that created it |
| History.EvictedIsOldest | internal/metadata/tail.go:204-214 | in every run, a trace evicted by a staging was opened at a clock no later than any other undecided trace of its shard whose row no other transaction holds; if the clocks of the stagings never step back, it was opened no later in the run |
| Guarantees.ExactlyOnePlace | internal/metadata/tail.go:139-345 | without deletions, each acknowledged key is in exactly one of four durable places |
| Guarantees.DecisionsJustified | internal/tail/runner.go:86-95 | without deletions, each decision is a pressure eviction or the reason that the attributes of all spans the trace ever accepted call for, and its span count is the number of those spans |
| Guarantees.Conservation | internal/metadata/tail.go:216-344 | event keys equal buffer rows plus outbox rows plus the spans of non-retained decisions, and each trace's span count is the number of its keys, before and after its decision |
| Guarantees.PublishBeforeMark | internal/tail/runner.go:100-107 | a message marked published is in the broker |
| Guarantees.FactsReachEveryStore | internal/telemetry/consumer.go:47-82 | whatever the gateways establish about each envelope they stage holds of every buffered, outgoing, published and stored copy, and no such envelope is dead-lettered |
| Guarantees.Capacity | internal/metadata/tail.go:14-18 | in every reachable state at most 100 undecided traces per tenant and shard, 1,000 per tenant, 200 buffer rows per trace, 200,000 per tenant, and a generation at most one above the span count |
| Guarantees.DecisionsAndTracesAgree | db/migrations/0004_tail_sampling.sql:29-38 | a decision row exists exactly when the trace is decided, with the same reason and time |
| Guarantees.StoredDuplicatesBounded | internal/metadata/store.go:111-138 | stored rows of a key plus persists under way never outnumber the ledger's attempts |
| Guarantees.BrokerCopiesCounted | internal/metadata/tail.go:347-390 | at the end of every run, deletions included, broker copies of a key plus sends under way never outnumber the times a worker took it from the outbox; without deletion that number is the attempts of its row |
| Guarantees.BrokerDuplicatesBounded | internal/metadata/tail.go:347-390 | without deletions, broker copies of a key plus sends under way never outnumber the outbox attempts, and there are none without an outbox row |
| Guarantees.StoredVerbatim | internal/telemetry/clickhouse.go:74-97 | each column of a stored row is the accepted envelope's own field, and its trace was retained |
| Guarantees.StoredRowsAreFirst | internal/broker/kafka.go:17-38 | in every run, deletions and re-sends included, each stored row is the row of the first record of its key that reached the broker, and so is whatever is about to be stored |
| Guarantees.ViewIsUnique | db/clickhouse/0001_telemetry.sql:16-17 | in every run, reading one row per tenant and key gives one result, whichever copy the engine keeps |
| Guarantees.DuplicatePersistInvisible | internal/telemetry/consumer.go:103-115 | in every run, persisting another copy of a stored key changes nothing a reader sees |
| Guarantees.TerminalKeysStopGrowing | internal/metadata/store.go:107-127 | once the ledger row of a key is terminal, stored rows of the key plus persists under way never grow again |
| Guarantees.DrainedViewIsExact | internal/telemetry/consumer.go:41-115 | once drained, a reader sees an event if and only if its key was acknowledged, its trace was not evicted, and some span of the trace failed or was slow or the trace is a sampled one; each once and verbatim, and nothing else |
| Guarantees.AdmittedExactlyWithTheTenant | db/migrations/0002_delivery_ledger.sql:3-3 | from a reachable state in which a partition is stuck at a record, the record becomes admissible in a run if and only if the run creates its tenant, and until then no committed offset passes it |
| FirstDelivery.ClaimedIsFirst | internal/telemetry/consumer.go:103-110 | a claim that succeeds is of the first record of its key, because earlier records of the partition are settled |
| FirstDelivery.StepFirst | internal/broker/kafka.go:17-38 | every step of the persistence workers stores first records only |
| Admission.StepAdmits | internal/metadata/store.go:111-127 | the only step that makes a stuck record admissible is the creation of its tenant |
| TailReasons.ReasonsAreRecordable | internal/metadata/tail.go:162-164 | no reachable decision row or trace gives the span limit as its reason, and a row is marked retained exactly when its reason says so |
| TailOwners.FreshExactlyForDistinctOwners | internal/metadata/tail.go:288-299 | with deletions allowed, every decision that takes effect is made on exactly the buffered rows if and only if no two workers share a name |
| TailOwners.DistinctOwnersDecideFresh | internal/metadata/tail.go:233-299 | with distinct names, in every run a decision that takes effect was made on exactly the rows it moves |
| TailOwners.DeletionFreeRunsDecideFresh | internal/metadata/tail.go:191-299 | the same for any names in runs without deletion, despite staging, eviction and leasing again |
| TailOwners.SharedOwnerDecidesBlindly | internal/metadata/tail.go:296-299 | a run with a tenant deletion in which a worker decides a new trace on the spans of the deleted one |
| TailSafety.StepSafe | internal/metadata/tail.go:62-456 | every step of every participant keeps the invariant behind the guarantees |
| TailExact.StepExact | internal/metadata/tail.go:93-390 | every step that deletes nothing keeps the exact invariant |
| TailInvariants.StageBatchKeeps | internal/metadata/tail.go:62-195 | an accepted batch has every key registered and keeps soundness, completeness and justification |
| TailInvariants.RecordCloses | internal/metadata/tail.go:335-344 | the plain insert of a decision never violates its unique constraint, and a decision takes effect exactly when owner and generation still match |
| TailInvariants.CloseKeepsComplete | internal/metadata/tail.go:303-344 | deciding or evicting a trace leaves each key in exactly one place |
| TailInvariants.RetentionSparesUndelivered | internal/metadata/tail.go:416-433 | retention leaves every buffer row, undecided trace and unpublished message in place, although deleting traces cascades |
| TailInvariants.RetentionKeepsSound | internal/metadata/tail.go:422-427 | retention keeps the invariant of all runs |
| TailInvariants.TenantDeletionKeepsSound | internal/metadata/tail.go:439-456 | tenant deletion keeps the invariant of all runs |
| TailCounting.TenantCapacity | internal/metadata/tail.go:100-113 | ten bounded shards bound the tenant |
| TailCounting.KeysConserved | internal/metadata/tail.go:303-344 | the counting identity behind conservation |
| TailStore.Store.StageBatch | internal/metadata/tail.go:62-91 | stages the whole batch, one group per trace in map order with a possible victim for each, or leaves every table as it was; refuses a batch without a tenant or of several; an accepted one has the effect of `TailLaws.StageBatchRows` and `StagingCases.StageBatchEvictsOldest` |
| TailStore.Store.StageTraceTx | internal/metadata/tail.go:93-195 | the rows after staging one trace: a new trace is first and last seen now, a trace that gains spans is last seen now and moves on by one generation, the new keys are registered and buffered, the victim is closed with its rows gone, and no other row changes; refused as full exactly for a new trace in a shard of a hundred undecided ones that are all locked |
| TailLaws.StageBatchRows | internal/metadata/tail.go:62-195 | after an accepted batch, each new trace row has `first_seen` at the staging's clock and every other one keeps it; a trace with new spans is last seen at that clock; each new key and buffer row is of an envelope of the batch under its own key, trace and tenant; a trace that is closed is closed by pressure; the outbox, the registered keys and the recorded decisions stay |
| StagingCases.StageTraceByCases | internal/metadata/tail.go:93-195 | staging one trace, by cases: a decided trace takes only keys that are its own, a new one needs a shard of less than 100 or an unlocked trace in it, no trace takes more than 200 spans, no new key may be repeated or buffered; otherwise the rows are as stated, and nothing else changes |
| StagingCases.VictimByCases | internal/metadata/tail.go:204-214 | a trace makes room exactly for a new one in a shard of at least 100, and it is an unlocked undecided one of that shard that was first seen no later than any other unlocked one |
| StagingCases.StageBatchEvictsOldest | internal/metadata/tail.go:204-229 | whatever the order of its traces, an accepted batch evicts only out of shards that it leaves with 100 undecided traces or more, and what it evicts was first seen no later than the unlocked traces that stay |
| TailStore.Store.AllKnown | internal/metadata/tail.go:117-131 | counting rows decides whether every distinct key is registered to the trace |
| TailStore.Store.EvictOldestTailTrace | internal/metadata/tail.go:204-214 | evicts an unlocked active trace of the shard that was first seen no later than any other, or reports pressure |
| TailStore.Store.EvictTailTrace | internal/metadata/tail.go:216-229 | removes the trace's rows and records the eviction in both tables |
| TailStore.Store.InsertSpans | internal/metadata/tail.go:135-194 | registers and buffers the new keys, refuses above 200 spans, and fails on a new key repeated in the batch |
| TailStore.InsertKeys | internal/metadata/tail.go:139-158 | the deduplicating insert returns exactly the keys that were new |
| TailStore.InsertRows | internal/metadata/tail.go:165-190 | the plain insert succeeds exactly when keys are distinct and not yet buffered |
| TailStore.WalkGroups | internal/metadata/tail.go:80-85 | every envelope lands in the one group of its trace, in batch order |
| TailStore.TakeOldest | internal/metadata/tail.go:206-206 | "order by ... limit" picks the oldest rows in order |
| TailStore.Store.ClaimTailTraces | internal/metadata/tail.go:233-262 | leases the quietest claimable traces up to the limit and returns their generations |
| RowLaws.ClaimByCases | internal/metadata/tail.go:233-262 | a claim takes only undecided traces that were quiet for long enough, in no lease in force and in no other transaction, each once and within the limit; one that it leaves although it could be taken is left for the limit and was seen no earlier than any taken |
| RowLaws.LeasedRows | internal/metadata/tail.go:246-248 | the claimed rows get the owner and the expiry and no other column or row changes |
| TailStore.Store.LoadTailTrace | internal/metadata/tail.go:264-283 | returns every buffered envelope of the trace, once, oldest first |
| RowLaws.LoadByCases | internal/metadata/tail.go:264-283 | the loaded keys are exactly those buffered for the trace, each once and in order of receipt, with their envelopes |
| TailStore.Store.RecordTailDecision | internal/metadata/tail.go:288-345 | applies the decision, does nothing when stale, or fails and rolls back |
| RowLaws.RecordByCases | internal/metadata/tail.go:288-345 | a decision applies exactly to an undecided trace in this owner's lease at the claimed generation; then trace and decision row agree on reason, time and count, the rows leave the buffer, a retained one is in the outbox under its own key unless the key was there, and nothing else changes |
| TailStore.Store.ClaimTailOutbox | internal/metadata/tail.go:347-379 | leases unpublished messages, oldest first, counting an attempt for each |
| RowLaws.OutboxClaimByCases | internal/metadata/tail.go:347-379 | a claim takes only unpublished messages in no lease in force and in no other transaction, each once, oldest first and up to the limit |
| RowLaws.TakenRows | internal/metadata/tail.go:359-361 | the taken rows get the owner, the expiry and one more attempt, and no other row changes |
| TailStore.Store.MarkTailOutboxPublished | internal/metadata/tail.go:381-390 | marks a message exactly when this owner still holds it unpublished |
| RowLaws.MarkByCases | internal/metadata/tail.go:381-390 | only an unpublished row in this owner's lease is marked; it gets the time and loses the lease, and no other row changes |
| TailStore.Store.DeleteTailDataBefore | internal/metadata/tail.go:416-433 | exactly the tenant's traces decided before the cutoff with the buffer rows they own, its keys and decisions created before it, and its published messages created before it are gone; every other row is as it was |
| TailStore.Store.DeleteTenantTailData | internal/metadata/tail.go:439-456 | exactly the tenant's traces with the buffer rows they own, its keys, its decisions and its messages are gone; every other row is as it was |
| Runner.Runner.Process | internal/tail/runner.go:68-109 | wherever it stops, a call is a run of the machine by this worker. At most 32 traces change, or the configured number: each was undecided, in no lease in force, and quiet for 2s, or the configured time, at the first reading of the clock; it is decided now, or leased to this worker until 15s, or the configured time, after that reading. At most as many messages change or are sent, each unpublished and in no lease in force at a later reading. An undisturbed call without error leaves no such trace or message but for the limit; with nothing waiting, it strictly reduces undecided traces plus buffered rows plus unpublished messages |
| Runner.Runner.Run | internal/tail/runner.go:39-62 | undisturbed, as many ticks as there is work end with empty buffers, every trace decided and every message published |
| Runner.Runner.PublishClaimed | internal/tail/runner.go:100-107 | a prefix of the claimed messages is marked, and at most one more is published, in order |
| Runner.WorkerKeepsToItself | internal/tail/runner.go:68-109 | a worker's run acknowledges and deletes nothing and touches no other worker |
| TailProgress.DecisionProgress | internal/tail/runner.go:86-95 | for a single worker no fence applies: each claimed trace is decided and the work shrinks |
| TailProgress.MarkProgress | internal/tail/runner.go:100-107 | each published message can be marked and the work shrinks |
| Consumer.LedgerStore.ClaimDelivery | internal/metadata/store.go:111-127 | fails exactly for a new key of an unknown tenant; otherwise a claim succeeds exactly when the key is not terminal, and counts an attempt |
| Consumer.LedgerStore.MarkPersisted | internal/metadata/store.go:129-138 | only a pending row becomes persisted |
| Consumer.LedgerStore.RecordLoss | internal/metadata/store.go:140-143 | only a pending row becomes evidenced loss |
| Consumer.LedgerStore.RecordDeadLetter | internal/metadata/store.go:147-157 | one dead letter per record, the first one kept, empty identities stored as null; fails exactly for a new one of an unknown tenant |
| Consumer.Consumer.Process | internal/telemetry/consumer.go:103-115 | claim, persist, mark: a run of the machine wherever it stops; undisturbed, it succeeds exactly for an admissible record |
| Consumer.Consumer.Handle | internal/telemetry/consumer.go:47-70 | a record is dead-lettered exactly when it cannot be processed |
| Consumer.Consumer.Run | internal/telemetry/consumer.go:41-75 | undisturbed, every record of the partition gets its durable effect and is committed, or the worker fails at the first record that the tables do not admit |
| Ledger.DeadLetterReason | internal/telemetry/consumer.go:47-82 | none exactly for a decoded record with key, tenant and a schema version 0, 1 or 2; the unknown-version reason exactly for other versions, and malformed otherwise |
| Ledger.LetterByFields | internal/telemetry/consumer.go:84-91 | a dead letter names the record's own tenant, key and version, empty ones as null |
| Ledger.RowCopies | internal/telemetry/clickhouse.go:74-82 | the stored row is the one whose columns are the envelope's own fields, with every signal but a log stored as a trace |
| Delivery.StepCommitted | internal/telemetry/consumer.go:41-91 | every step of any number of workers keeps "committed means done", and each dead letter names its record truly |
| Delivery.StepRows | internal/telemetry/consumer.go:103-115 | every step keeps stored rows plus persists under way within the attempts |
| Pipeline.RunSafe | internal/telemetry/consumer.go:41-115 | the invariants hold at the end of every run of the whole pipeline |
| Pipeline.RunExact | internal/tail/runner.go:68-109 | the exact invariants hold at the end of every run without deletion |
| Refinement.WorkerStaysReachable | internal/tail/runner.go:68-109 | what a worker's call leaves behind is again a reachable state of the pipeline |
| Refinement.ConsumerStaysReachable | internal/telemetry/consumer.go:41-75 | the same for a persistence worker |
| TailOrder.OrderIndependentExactly | internal/metadata/tail.go:85-89 | in all states with room for the new traces, any two map orders both accept with the same tables or both refuse, if and only if each key shared by two traces of the batch is repeated within each of them |
| TailOrder.RepeatedNewKeyRefuses | internal/metadata/tail.go:165-190 | a new key that no trace has just once and some trace repeats refuses the batch in every order |
| ReachableOrder.OrderIndependentInRunsExactly | internal/metadata/tail.go:85-89 | the same if-and-only-if over the states that runs reach, for batches of at most 200 events whose traces fit each shard and gateways that accept an event in any trace |
| Gateway.OrderMattersInGatewayRuns | internal/ingest/gateway.go:185-202 | the same for the runs of the gateway's own envelopes |
| TailEffects.KnownBatchStoresNothing | internal/metadata/tail.go:135-161 | an accepted batch whose keys are all registered adds no key, no buffer row and no outbox row, whatever it contains |
| Tenancy.StagingDoesNotInterfere | internal/metadata/tail.go:93-229 | staging touches no other tenant's row, and in two states that agree on a tenant's rows it has the same possible victims and the same effect on them |
| Tenancy.DecidingDoesNotInterfere | internal/metadata/tail.go:288-345 | the same of a decision |
| Tenancy.ReachableIsTenantKeyed | internal/ingest/gateway.go:197-197 | in every reachable state each stored key starts with its own tenant and a colon |
| Tenancy.KeysCollideExactly | internal/ingest/gateway.go:197-197 | two tenants can produce one key if and only if one identifier continues the other with a colon |
| Tenancy.IndependentExactly | internal/ingest/gateway.go:197-197 | where only two tenants have rows, staging a batch of one has the possible victims and outcome that its own rows determine, if and only if neither identifier continues the other with a colon |
| Tenancy.CollidingEventIsDropped | internal/ingest/gateway.go:197-197 | of two tenants with a common key, the event of the second is buffered in an empty store but acknowledged and dropped after the first one's |
| Tenancy.DecisionIndependentExactly | internal/metadata/tail.go:303-344 | where only two tenants have rows, a decision on a trace of one has the outcome that its own rows determine, if and only if neither identifier continues the other with a colon |
| Tenancy.TakenKeyLosesMessage | internal/metadata/tail.go:303-344 | a retained span whose key another tenant's outbox row has leaves the buffer and reaches the outbox only if that row is absent |
| Sampling.DecideIsVerdictOfTheSet | internal/sampling/sampler.go:33-54 | a decision depends on the set of spans alone, so a retry in another order agrees |
| Sampling.DecideByAttributes | internal/sampling/sampler.go:33-54 | the reason read off the attributes: retained for an error exactly if some span failed, as slow exactly if none did and some `duration_ms` converts to at least the threshold (1s if unset), as sampled exactly if neither and the hash is 0 modulo the configured number (100 if unset), and dropped otherwise |
| Sampling.ErrorByAttributes | internal/sampling/sampler.go:127-130 | a span failed exactly if `error` is `true` or `http.status_code` is a numeral of at least 500, with or without a plus sign; a missing or malformed code is none |
| Sampling.MoreSpansKeepRetention | internal/sampling/sampler.go:40-53 | adding spans never turns a kept trace into a dropped one |
| Sampling.DivisorKeepsRetention | internal/sampling/sampler.go:135-139 | replacing the modulo by a divisor of it never drops a kept trace |
| Streaming.Sampler.constructor | internal/sampling/sampler.go:56-70 | limits of 1000 traces and 100 spans, one trace in 100 and one second where nothing is configured, and an empty sampler that satisfies the invariant |
| Streaming.Sampler.Observe | internal/sampling/sampler.go:75-103 | by the attributes of the span: the trace is closed with the reason for the span limit, an error or slowness, or holds the span and the time it was opened at; the victim alone makes room and no other trace changes; the maxima and the invariant are kept |
| Streaming.Sampler.Complete | internal/sampling/sampler.go:105-115 | closing a trace reports exactly what the batch classifier says of its buffered spans |
| Streaming.Sampler.EvictOldest | internal/sampling/sampler.go:116-126 | the trace the scan ends with, for some order of the map |
| Streaming.EvictionPicksEarliestExactly | internal/sampling/sampler.go:116-126 | every map order evicts an earliest trace if and only if no nameless trace is strictly older than the others |
| Streaming.EvictionReportedExactly | internal/sampling/sampler.go:91-102 | an eviction is reported if and only if the new span is neither an error nor slow |
| Streaming.FeedingAgreesExactly | internal/sampling/sampler.go:75-115 | feeding a trace agrees with the batch classifier on keeping it if and only if the spans fit the limit, or an error or slow span is among the first ones, or no span is one and the identifier is not sampled |
| Streaming.ObserveKeepsInvariant | internal/sampling/sampler.go:86-102 | the hidden invariant is kept whatever the map order |
| Redaction.Sanitize | internal/redaction/redaction.go:21-54 | an attribute whose lower-cased key, with underscores read as dashes, holds one of seven markers reads `[REDACTED]` and is on the receipt; any other changes by the email pattern and then the given patterns, each applied to what its predecessors left, and is on the receipt exactly if one of them matched; no path is listed twice or without attribute |
| Redaction.ReceiptIsExact | internal/redaction/redaction.go:28-51 | what the receipt does not name equals the input; sensitive keys are replaced and named |
| Redaction.RedactValue | internal/redaction/redaction.go:34-45 | patterns apply in order, each to what its predecessors left |
| Gateway.Gateway.AcceptEvents | internal/ingest/gateway.go:185-202 | under the policy that applies to the tenant, acceptance is one staging step of exactly one envelope per event; a refusal changes nothing, and a missing policy refuses |
| Gateway.Gateway.AcceptRequest | internal/ingest/native_otlp.go:52-127 | one event per record in nested order, between 1 and 200, or nothing is staged |
| Gateway.Gateway.ResolvePolicy | internal/ingest/gateway.go:218-245 | the configured policy without a resolver or a tenant policy; the tenant's version and the configured patterns followed by its own compiled ones if it has a version and each expression has 1 to 512 bytes and compiles; otherwise none |
| Gateway.Gateway.Seal | internal/ingest/gateway.go:189-198 | succeeds exactly when all events are valid; current version, tenant key and exact receipt on each envelope |
| Gateway.RedactionReachesEveryStore | internal/redaction/redaction.go:21-64 | in every reachable state, every copy of a gateway's event in any store reads `[REDACTED]` under each key that holds one of the seven markers, and its receipt says so; and none of them is dead-lettered |
| Gateway.MadeIsFit | internal/ingest/gateway.go:189-197 | what the gateway makes can be processed, is keyed by its tenant and is redacted |
| PolicyCache.EveryRunIsSafe | internal/ingest/policy_cache.go:36-59 | however calls interleave, entries and served policies are validated answers for that tenant, entries never disappear, and no call that began with an entry fails |
| PolicyRecency.CacheIsRecentExactly | internal/ingest/policy_cache.go:18-20 | in all runs with at most n refreshes of a tenant in flight, every entry is the last valid answer if and only if n is at most one, and so is every policy served after asking the source |
| PolicyRecency.OlderRefreshMayWin | internal/ingest/policy_cache.go:37-57 | a run of two overlapping refreshes leaves the older of two different answers in the cache |
| PolicyRecency.StaleEntryMayBeServed | internal/ingest/policy_cache.go:43-53 | a run in which a refresh that fails serves an entry an overlapping one has replaced |
| PolicyCache.CachedPolicyResolver.RedactionPolicy | internal/ingest/policy_cache.go:36-59 | one call by itself is a run of the machine: an entry younger than the interval is served unasked; otherwise a usable answer is served and stored with the call's clock, and after any other the old entry is served, or the call fails without one |
| PolicyCache.ValidatePolicy | internal/ingest/policy_cache.go:61-77 | accepts exactly a policy that is not found, or has a version and expressions of 1 to 512 bytes that compile |
| Otlp.Collect | internal/ingest/native_otlp.go:52-86 | collects the events of all records in nested order exactly when the request can be normalized |
| OtlpFields.NormalizableExactly | internal/ingest/native_otlp.go:52-86 | a request can be normalized exactly if it has 1 to 200 records and no event of them is too long, nameless or of an unknown signal |
| OtlpFields.ValidExactly | internal/ingest/gateway.go:247-268 | an event is refused exactly for an identifier, name, attribute key or value over its limit, more than 64 attributes, an empty identifier, name or key, a span without trace or span identifier, or an unknown signal |
| OtlpFields.FlatAt | internal/ingest/native_otlp.go:54-58 | the event of a record has the rank of the record: the number of records in earlier resources, earlier scopes and before it in its own |
| OtlpFields.ProtoSpanFields | internal/ingest/native_otlp.go:61-79 | identifiers, name and parent of a span event, and each attribute: source, kind and status are set; any other is the last scalar of that key in the span, or else in its resource |
| OtlpFields.JsonSpanFields | internal/ingest/otlp.go:80-95 | the same for a span sent as JSON |
| OtlpFields.ProtoLogFields | internal/ingest/native_otlp.go:98-119 | a log event's identifier from trace, span, time and position, and its attributes: source, a severity if there is one, the body if it is scalar, and the rest as for spans |
| OtlpFields.JsonLogFields | internal/ingest/otlp.go:127-145 | the same for a log sent as JSON |
| OtlpFields.ScalarText | internal/ingest/native_otlp.go:152-170 | the text of each kind of attribute value; an integer's is a numeral that denotes it, and lists, maps and nothing have none |
| Otlp.MergeAttributes | internal/ingest/native_otlp.go:136-150 | the loop computes the merge of base and scalar attributes |
| Otlp.LastScalarWins | internal/ingest/native_otlp.go:141-148 | the last scalar value of a key counts, over earlier ones and over the resource |
| Otlp.IntegerStatusIsReadBack | internal/sampling/sampler.go:127-130 | an integer status attribute, formatted at the gateway and parsed by the sampler, makes a span an error exactly from 500 on |
| Otlp.OverlayIsMerge | internal/ingest/otlp.go:84-90 | the JSON path's two-step overlay gives the same attributes |
| Otlp.JsonSpanMatchesProtobuf | internal/ingest/otlp.go:80-95 | a span sent as JSON becomes the event it becomes as protobuf, but for the attributes the adapters add |
| Otlp.JsonLogMatchesProtobuf | internal/ingest/otlp.go:127-145 | a log record becomes the same event in both encodings, but for the name of its source |
| Otlp.FmtHex | internal/telemetry/consumer.go:93-101 | the in-place loop computes the hexadecimal text |
| OtlpFields.HexDigits | internal/telemetry/consumer.go:93-101 | two lower-case digits a byte, the higher one first |
| Otlp.HexIsInjective | internal/ingest/otlp.go:186-194 | different bytes have different text |
| Otlp.ProtobufSpanIdsAreInjective | internal/ingest/native_otlp.go:68-68 | span event identifiers determine trace and span bytes |
| Otlp.NormalizedSpansAreIdentified | internal/ingest/native_otlp.go:61-79 | events of one or two requests share an identifier only with equal trace and span bytes |
| Otlp.JsonSpanIdsCollideExactly | internal/ingest/otlp.go:92-92 | JSON span identifiers of two traces can collide if and only if one trace identifier continues the other with a colon |
| Otlp.JsonSpansAreIdentified | internal/ingest/otlp.go:80-98 | events of one or two JSON requests share an identifier only with equal trace and span identifiers, or if one trace identifier continues the other with a colon |
| Otlp.LogIdentitiesAgree | internal/ingest/otlp.go:142-142 | two log identities are equal if and only if the positions in the request are and the texts of trace, span and time joined with colons are |
| Otlp.NormalizedLogsAreIdentified | internal/ingest/native_otlp.go:106-119 | two logs of one or two protobuf requests share an identifier if and only if the digests of their identities are equal, and the identities are equal if and only if the records agree on trace, span, time and position, so never within one request |
| Otlp.JsonLogsAreIdentified | internal/ingest/otlp.go:142-149 | the same for JSON, where the joined texts must agree, and the fields themselves if no identifier holds a colon |

## Left out

- PostgreSQL, Kafka, ClickHouse and HTTP clients, JSON and protobuf decoding, authentication and API keys: a request arrives decoded, and a stored envelope reads back as it was written.
- Each database transaction is one atomic step. Row and advisory locks justify this for staging, eviction and decisions; for the two deletions, which run several statements, it is an idealisation. Lock waits and deadlocks only abort.
- The reference of tail rows to the `tenants` table: a staging for an unknown tenant, which an authenticated request does not name, is not refused. No code deletes a tenant.
- Runner.Runner.Process: proved as a run of one worker by itself; what others do between its transactions is interleaved in the state machine, not in the method.
- Runner.World.Publish: ignores the Kafka writer's internal retries; a publish appends at most once.
- Other producers put only unprocessable records on the topic: a gateway without a stager, which publishes directly, is not part of the runs.
- Consumer.World.Persist: the ClickHouse deletions of retention and tenant erasure are not modelled, so no claim is made about rows that reappear after them.
- Consumer.LedgerStore.RecordDeadLetter: the row's payload digest is not modelled; the partition and offset are the record's position in the log.
- Consumer.Consumer.Run: reads one partition to its current end, where the source waits for more.
- Gateway.Gateway.AcceptEvents: models the batch stager; the publisher-only mode and the single-event stager of tests are left out.
- Redaction.Sanitize: regular expressions are abstract, so nothing is claimed about what a replaced value still contains.
- Sampling.DecideIsVerdictOfTheSet: a healthy modulo of 2^32 or more, which the source truncates and may divide by zero, is excluded by the configuration type.
- Tenancy.StagingDoesNotInterfere: says nothing about leasing, where the claim limit is shared between tenants.
- `TailDecisions`, metrics, health endpoints, the console, deployment files and synthetic services: reading or presenting state, without effect on it.
