// The sanitized envelope that every stage of the pipeline stores or forwards
// (internal/ingest/gateway.go), with what the other modules share.
module Telemetry {
  datatype Option<+T> = None | Some(value: T)

  datatype Receipt = Receipt(policyVersion: string, redactedPaths: seq<string>)

  datatype Event = Event(
    eventId: string,
    signal: string,
    traceId: string,
    spanId: string,
    parentSpanId: string,
    name: string,
    attributes: map<string, string>)

  datatype Envelope = Envelope(
    schemaVersion: int,
    tenantId: string,
    event: Event,
    policy: Receipt,
    eventKey: string)

  const CURRENT_ENVELOPE_VERSION := 2
  const PREVIOUS_ENVELOPE_VERSION := 1

  // Reading a missing key of a Go map yields the empty string.
  function Attribute(event: Event, name: string): string {
    if name in event.attributes then event.attributes[name] else ""
  }

  lemma SubsetIsNoLarger<T>(a: set<T>, b: set<T>)
    requires a <= b
    ensures |a| <= |b|
  {
    if a != b {
      assert b == a + (b - a);
    }
  }
}
