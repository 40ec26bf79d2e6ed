// A record of a tenant that the tenants table does not hold can neither be
// claimed nor dead-lettered; the partition waits at it until the tenant exists.
module Admission {
  import opened Telemetry
  import opened Broker
  import opened Delivery
  import opened FirstDelivery
  import L = Ledger

  // The first record of the partition that is not done is not admitted.
  ghost predicate StuckAt(log: seq<Record>, s: State, partition: nat, at: nat) {
    && at < |log| && log[at].partition == partition
    && DoneBelow(log, s, partition, at)
    && !Admissible(log, s, at)
  }

  // The tenant the record is filed under, if any.
  function TenantOf(r: Record): Option<string> {
    if Processable(r) then Some(r.payload.envelope.tenantId) else L.LetterFor(r).tenant
  }

  lemma StuckBounds(log: seq<Record>, s: State, partition: nat, at: nat, bound: nat)
    requires StuckAt(log, s, partition, at) && DoneBelow(log, s, partition, bound)
    ensures bound <= at
  {
  }

  // Another worker cannot help: it would have to settle the record first, and
  // other partitions hold other keys.
  lemma NobodyElseClaims(log: seq<Record>, s: State, w: nat, partition: nat, at: nat, partitionOf: Partitioning)
    requires Enabled(log, s, Claim(w)) && Committed(log, s) && Partitioned(log, partitionOf)
    requires StuckAt(log, s, partition, at) && Processable(log[at])
    ensures KeyAt(log, ConsumerOf(s, w).at) != KeyAt(log, at)
  {
    var c := ConsumerOf(s, w);
    assert ConsumerOk(log, s, c);
    assert c.partition == partition && c.at < at ==> Done(log, s, c.at);
    if c.partition == partition {
      StuckBounds(log, s, partition, at, c.at);
    }
  }

  lemma StepAdmits(log: seq<Record>, s: State, a: Action, partition: nat, at: nat, partitionOf: Partitioning)
    requires Enabled(log, s, a) && Committed(log, s) && Partitioned(log, partitionOf) && StuckAt(log, s, partition, at)
    ensures Admissible(log, Do(log, s, a), at) <==> a.CreateTenant? && TenantOf(log[at]) == Some(a.tenant)
  {
    if a.Claim? && Processable(log[at]) {
      NobodyElseClaims(log, s, a.w, partition, at, partitionOf);
    }
    hide Committed, Partitioned, DoneBelow;
  }

  lemma StepStaysStuck(log: seq<Record>, s: State, a: Action, partition: nat, at: nat, partitionOf: Partitioning)
    requires Enabled(log, s, a) && Committed(log, s) && Partitioned(log, partitionOf) && StuckAt(log, s, partition, at)
    requires a.CreateTenant? ==> TenantOf(log[at]) != Some(a.tenant)
    ensures StuckAt(log, Do(log, s, a), partition, at)
  {
    StepAdmits(log, s, a, partition, at, partitionOf);
    StepKeepsEffects(log, s, a);
    hide Do, Enabled, Committed, Admissible;
  }

  lemma StepKeepsAdmission(log: seq<Record>, s: State, a: Action, at: nat)
    requires Enabled(log, s, a) && at < |log| && Admissible(log, s, at)
    ensures Admissible(log, Do(log, s, a), at)
  {
    StepKeepsEffects(log, s, a);
    TenantsStay(log, s, a);
    hide Do, Enabled, L.LetterFor;
  }

  lemma TenantsStay(log: seq<Record>, s: State, a: Action)
    requires Enabled(log, s, a)
    ensures s.tenants <= Do(log, s, a).tenants
  {
  }

  lemma AppendStaysStuck(log: seq<Record>, r: Record, s: State, partition: nat, at: nat)
    requires StuckAt(log, s, partition, at)
    ensures StuckAt(log + [r], s, partition, at) && TenantOf((log + [r])[at]) == TenantOf(log[at])
  {
  }

  lemma StuckIsUncommitted(log: seq<Record>, s: State, partition: nat, at: nat)
    requires Committed(log, s) && StuckAt(log, s, partition, at)
    ensures CommittedOf(s, partition) <= at
  {
    if partition in s.committed {
      StuckBounds(log, s, partition, at, s.committed[partition]);
    }
  }
}
