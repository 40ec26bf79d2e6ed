// The delivery ledger and dead-letter tables of internal/metadata/store.go, as
// functions, and the row that internal/telemetry/clickhouse.go stores.
module Ledger {
  import opened Telemetry
  import opened Broker

  datatype Status = Pending | Persisted | LossEvidenced
  datatype LedgerRow = LedgerRow(tenant: string, status: Status, attempts: nat)
  type Rows = map<string, LedgerRow>

  datatype Reason = MalformedEnvelope | UnknownSchemaVersion
  datatype DeadLetter = DeadLetter(tenant: Option<string>, key: Option<string>, version: int, reason: Reason)

  // insert ... on conflict (event_key) do update ... where status = 'pending'
  function ClaimDelivery(rows: Rows, key: string, tenant: string): (Rows, bool) {
    if key !in rows then (rows[key := LedgerRow(tenant, Pending, 1)], true)
    else if rows[key].status.Pending? then (rows[key := rows[key].(attempts := rows[key].attempts + 1)], true)
    else (rows, false)
  }

  // delivery_ledger refers to tenants: a new row needs one, an existing row has it.
  predicate MayClaim(tenants: set<string>, rows: Rows, key: string, tenant: string) {
    key in rows || tenant in tenants
  }

  // So does telemetry_dead_letters, where the tenant may be null.
  predicate MayRecord(tenants: set<string>, letters: map<nat, DeadLetter>, at: nat, letter: DeadLetter) {
    at in letters || letter.tenant.None? || letter.tenant.value in tenants
  }

  predicate IsPending(rows: Rows, key: string) {
    key in rows && rows[key].status.Pending?
  }

  predicate Terminal(rows: Rows, key: string) {
    key in rows && !rows[key].status.Pending?
  }

  function MarkPersisted(rows: Rows, key: string): Rows
    requires IsPending(rows, key)
  {
    rows[key := rows[key].(status := Persisted)]
  }

  function RecordLoss(rows: Rows, key: string): Rows {
    if IsPending(rows, key) then rows[key := rows[key].(status := LossEvidenced)] else rows
  }

  // The reason for which Run dead-letters a record, if it does.
  function DeadLetterReason(r: Record): (reason: Option<Reason>)
    ensures reason.None? <==> Processable(r)
    ensures reason.None? <==>
            && r.payload.Decoded? && r.payload.envelope.eventKey != "" && r.payload.envelope.tenantId != ""
            && r.payload.envelope.schemaVersion in {0, 1, 2}
    ensures reason == Some(UnknownSchemaVersion) <==>
            && r.payload.Decoded? && r.payload.envelope.eventKey != "" && r.payload.envelope.tenantId != ""
            && r.payload.envelope.schemaVersion !in {0, 1, 2}
  {
    if r.payload.Undecodable? || r.payload.envelope.eventKey == "" || r.payload.envelope.tenantId == ""
      then Some(MalformedEnvelope)
    else if !SupportedVersion(r.payload.envelope.schemaVersion) then Some(UnknownSchemaVersion)
    else None
  }

  function NullIfEmpty(text: string): Option<string> {
    if text == "" then None else Some(text)
  }

  // Routing identity, version and reason; never the telemetry content.
  function LetterFor(r: Record): DeadLetter
    requires !Processable(r)
  {
    var e := if r.payload.Decoded? then r.payload.envelope else r.payload.partial;
    var reason := DeadLetterReason(r).value;
    DeadLetter(NullIfEmpty(e.tenantId), NullIfEmpty(e.eventKey),
               if reason.UnknownSchemaVersion? then NormalizedVersion(e.schemaVersion) else e.schemaVersion, reason)
  }

  // What a dead letter names are the record's own fields.
  lemma LetterByFields(r: Record)
    requires !Processable(r)
    ensures var letter, e := LetterFor(r), if r.payload.Decoded? then r.payload.envelope else r.payload.partial;
            && letter.tenant == (if e.tenantId == "" then None else Some(e.tenantId))
            && letter.key == (if e.eventKey == "" then None else Some(e.eventKey))
            && letter.version == e.schemaVersion
            && Some(letter.reason) == DeadLetterReason(r)
  {
  }

  // The row key is (broker_partition, broker_offset); here it is the position
  // of the record in the log, which determines both.
  function RecordDeadLetter(letters: map<nat, DeadLetter>, at: nat, letter: DeadLetter): map<nat, DeadLetter> {
    if at in letters then letters else letters[at := letter]
  }

  datatype SpanRow = SpanRow(tenant: string, key: string, event: Event, policy: Receipt)

  function RowOf(e: Envelope): SpanRow {
    SpanRow(e.tenantId, e.eventKey, e.event.(signal := if e.event.signal == "log" then "log" else "trace"), e.policy)
  }

  // Each stored column is the envelope's own field; what is no log is a trace.
  predicate Copies(row: SpanRow, e: Envelope) {
    && row.tenant == e.tenantId && row.key == e.eventKey
    && row.event.eventId == e.event.eventId && row.event.name == e.event.name
    && row.event.traceId == e.event.traceId && row.event.spanId == e.event.spanId
    && row.event.parentSpanId == e.event.parentSpanId && row.event.attributes == e.event.attributes
    && row.event.signal == (if e.event.signal == "log" then "log" else "trace")
    && row.policy.policyVersion == e.policy.policyVersion && row.policy.redactedPaths == e.policy.redactedPaths
  }

  lemma RowCopies(row: SpanRow, e: Envelope)
    ensures row == RowOf(e) <==> Copies(row, e)
  {
  }
}
