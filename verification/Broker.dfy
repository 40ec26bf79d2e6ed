// The telemetry topic, and which of its records the persistence worker processes
// (internal/telemetry/consumer.go).
module Broker {
  import opened Telemetry

  // The broker in global append order. The offset of a record is its rank among
  // the records of its partition.
  // A value that fails to decode still leaves a partly filled envelope behind.
  datatype Payload = Undecodable(partial: Envelope) | Decoded(envelope: Envelope)
  datatype Record = Record(partition: nat, payload: Payload)

  // The producer keys each message by its event key and hashes the key to choose
  // the partition (internal/broker/kafka.go), so one key stays in one partition.
  type Partitioning = string -> nat

  function Sent(partitionOf: Partitioning, e: Envelope): Record {
    Record(partitionOf(e.eventKey), Decoded(e))
  }

  function NormalizedVersion(version: int): int {
    if version == 0 then PREVIOUS_ENVELOPE_VERSION else version
  }

  predicate SupportedVersion(version: int) {
    NormalizedVersion(version) == PREVIOUS_ENVELOPE_VERSION || NormalizedVersion(version) == CURRENT_ENVELOPE_VERSION
  }

  predicate Processable(r: Record) {
    && r.payload.Decoded?
    && r.payload.envelope.eventKey != "" && r.payload.envelope.tenantId != ""
    && SupportedVersion(r.payload.envelope.schemaVersion)
  }

  // A crash, a shutdown or a lost connection, which can come between any two steps.
  method Interrupted(reliable: bool) returns (stopped: bool)
    ensures reliable ==> !stopped
  {
    var halted: bool := *;
    stopped := halted && !reliable;
  }
}
