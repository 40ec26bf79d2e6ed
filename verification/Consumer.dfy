// internal/telemetry/consumer.go and the delivery half of internal/metadata/store.go:
// one persistence worker, step by step. Wherever it stops, what it did is a run of
// the state machine of Delivery; undisturbed, it settles its whole partition.
module Consumer {
  import opened Telemetry
  import opened Broker
  import opened Ledger
  import opened Delivery
  import opened Admission

  class LedgerStore {
    const tenants: set<string>
    var ledger: Rows
    var deadLetters: map<nat, DeadLetter>

    constructor (tenants: set<string>)
      ensures this.tenants == tenants && ledger == map[] && deadLetters == map[]
    {
      this.tenants, ledger, deadLetters := tenants, map[], map[];
    }

    method ClaimDelivery(key: string, tenant: string) returns (ok: bool, shouldPersist: bool)
      modifies this`ledger
      ensures ok == MayClaim(tenants, old(ledger), key, tenant)
      ensures ok ==> (ledger, shouldPersist) == Ledger.ClaimDelivery(old(ledger), key, tenant)
      ensures shouldPersist <==> ok && !Terminal(old(ledger), key)
      ensures ok <==> key in old(ledger) || tenant in tenants
      ensures shouldPersist <==> ok && (key in old(ledger) ==> old(ledger)[key].status == Pending)
      ensures ledger == if !shouldPersist then old(ledger)
                        else old(ledger)[key := if key !in old(ledger) then LedgerRow(tenant, Pending, 1)
                                                else var row := old(ledger)[key];
                                                     LedgerRow(row.tenant, Pending, row.attempts + 1)]
    {
      if key !in ledger {
        if tenant !in tenants {
          return false, false;
        }
        ledger := ledger[key := LedgerRow(tenant, Pending, 1)];
      } else if ledger[key].status.Pending? {
        ledger := ledger[key := ledger[key].(attempts := ledger[key].attempts + 1)];
      } else {
        return true, false;
      }
      return true, true;
    }

    method MarkPersisted(key: string) returns (ok: bool)
      modifies this`ledger
      ensures ok == IsPending(old(ledger), key)
      ensures ledger == if ok then Ledger.MarkPersisted(old(ledger), key) else old(ledger)
      ensures ok <==> key in old(ledger) && old(ledger)[key].status == Pending
      ensures ok ==>
                ledger == old(ledger)[key := LedgerRow(old(ledger)[key].tenant, Persisted, old(ledger)[key].attempts)]
    {
      if key !in ledger || !ledger[key].status.Pending? {
        return false;
      }
      ledger := ledger[key := ledger[key].(status := Persisted)];
      return true;
    }

    method RecordLoss(key: string)
      modifies this`ledger
      ensures ledger == Ledger.RecordLoss(old(ledger), key)
      ensures ledger == if key !in old(ledger) || old(ledger)[key].status != Pending then old(ledger)
                        else var row := old(ledger)[key];
                             old(ledger)[key := LedgerRow(row.tenant, LossEvidenced, row.attempts)]
    {
      if key in ledger && ledger[key].status.Pending? {
        ledger := ledger[key := ledger[key].(status := LossEvidenced)];
      }
    }

    method RecordDeadLetter(at: nat, tenant: string, key: string, version: int, reason: Reason) returns (ok: bool)
      modifies this`deadLetters
      ensures var letter := DeadLetter(NullIfEmpty(tenant), NullIfEmpty(key), version, reason);
              && ok == MayRecord(tenants, old(deadLetters), at, letter)
              && deadLetters == if ok then Ledger.RecordDeadLetter(old(deadLetters), at, letter) else old(deadLetters)
      ensures ok <==> at in old(deadLetters) || tenant == "" || tenant in tenants
      ensures deadLetters == if !ok || at in old(deadLetters) then old(deadLetters)
                             else old(deadLetters)[at := DeadLetter(if tenant == "" then None else Some(tenant),
                                                                    if key == "" then None else Some(key),
                                                                    version, reason)]
    {
      var nullableTenant: Option<string> := None;
      if tenant != "" {
        nullableTenant := Some(tenant);
      }
      if at !in deadLetters {
        if nullableTenant.Some? && nullableTenant.value !in tenants {
          return false;
        }
        deadLetters := deadLetters[at := DeadLetter(nullableTenant, NullIfEmpty(key), version, reason)];
      }
      return true;
    }
  }

  // The sink, the consumer group's committed offsets, and whatever can stop the
  // worker. Nothing stops it in a `reliable` world.
  class World {
    const log: seq<Record>
    const reliable: bool
    var committed: map<nat, nat>
    var sink: seq<SpanRow>

    constructor (log: seq<Record>, reliable: bool)
      ensures this.log == log && this.reliable == reliable && committed == map[] && sink == []
    {
      this.log, this.reliable, committed, sink := log, reliable, map[], [];
    }

    // A failed insert may still have stored the row.
    method Persist(e: Envelope) returns (ok: bool, ghost stored: bool)
      modifies this`sink
      ensures sink == if stored then old(sink) + [RowOf(e)] else old(sink)
      ensures (ok ==> stored) && (reliable ==> ok)
    {
      var lost: bool, unreported: bool := *, *;
      if lost && !reliable {
        return false, false;
      }
      var signal := if e.event.signal == "log" then "log" else "trace";
      sink := sink + [SpanRow(e.tenantId, e.eventKey, e.event.(signal := signal), e.policy)];
      return !unreported || reliable, true;
    }

    // The next record of the partition, or None where FetchMessage would wait.
    method FetchMessage(partition: nat, next: nat) returns (at: Option<nat>)
      requires next <= |log|
      ensures at.Some? ==> next <= at.value < |log| && log[at.value].partition == partition
      ensures forall i :: next <= i < (if at.Some? then at.value else |log|) ==> log[i].partition != partition
    {
      for i := next to |log|
        invariant forall j :: next <= j < i ==> log[j].partition != partition
      {
        if log[i].partition == partition {
          return Some(i);
        }
      }
      return None;
    }
  }

  // ---------- runs of one worker ----------

  predicate ByConsumer(a: Action, w: nat) {
    !ByOthers(a) && a.w == w
  }

  ghost predicate Run(log: seq<Record>, s: State, actions: seq<Action>)
    decreases |actions|
  {
    actions != [] ==> Enabled(log, s, actions[0]) && Run(log, Do(log, s, actions[0]), actions[1..])
  }

  ghost function After(log: seq<Record>, s: State, actions: seq<Action>): State
    requires Run(log, s, actions)
    decreases |actions|
  {
    if actions == [] then s else After(log, Do(log, s, actions[0]), actions[1..])
  }

  ghost predicate Leads(log: seq<Record>, w: nat, s: State, actions: seq<Action>, t: State) {
    && (forall i :: 0 <= i < |actions| ==> ByConsumer(actions[i], w))
    && Run(log, s, actions) && After(log, s, actions) == t
  }

  lemma LeadsNowhere(log: seq<Record>, w: nat, s: State)
    ensures Leads(log, w, s, [], s)
  {
  }

  lemma {:induction false} LeadsFurther(log: seq<Record>, w: nat, s: State, actions: seq<Action>, t: State, a: Action)
    requires Leads(log, w, s, actions, t) && Enabled(log, t, a) && ByConsumer(a, w)
    ensures Leads(log, w, s, actions + [a], Do(log, t, a))
    decreases |actions|
  {
    hide Enabled, Do, ByConsumer;
    var longer := actions + [a];
    if actions == [] {
      assert longer[0] == a && longer[1..] == [];
      assert Run(log, Do(log, s, a), []) && After(log, Do(log, s, a), []) == Do(log, s, a);
    } else {
      assert longer[1..] == actions[1..] + [a];
      LeadsFurther(log, w, Do(log, s, actions[0]), actions[1..], t, a);
    }
  }

  lemma {:induction false} RunCommitted(log: seq<Record>, s: State, actions: seq<Action>)
    requires Run(log, s, actions) && Committed(log, s)
    ensures Committed(log, After(log, s, actions))
    decreases |actions|
  {
    hide Committed, Enabled, Do;
    if actions != [] {
      StepCommitted(log, s, actions[0]);
      RunCommitted(log, Do(log, s, actions[0]), actions[1..]);
    }
  }

  lemma SettledBelow(log: seq<Record>, w: nat, s: State, actions: seq<Action>, t: State, partition: nat, next: nat)
    requires Leads(log, w, s, actions, t) && Committed(log, s)
    requires ConsumerOf(t, w) == Ready(partition, next)
    ensures forall i: nat :: i < next && i < |log| && log[i].partition == partition ==> Done(log, t, i)
  {
    hide Enabled, Do, ByConsumer;
    RunCommitted(log, s, actions);
    assert ConsumerOk(log, t, t.consumers[w]);
  }

  lemma FetchedIsStuck(log: seq<Record>, w: nat, s: State, actions: seq<Action>, t: State, partition: nat, at: nat)
    requires Leads(log, w, s, actions, t) && Committed(log, s)
    requires ConsumerOf(t, w) == Fetched(partition, at) && at < |log| && !Admissible(log, t, at)
    ensures StuckAt(log, t, partition, at)
  {
    hide Enabled, Do, ByConsumer, Admissible;
    RunCommitted(log, s, actions);
    assert ConsumerOk(log, t, t.consumers[w]);
  }

  // ---------- what each step of the machine does to the worker ----------

  lemma DoStart(log: seq<Record>, s: State, w: nat, partition: nat)
    requires ConsumerOf(s, w).Stopped? && CommittedOf(s, partition) <= |log|
    ensures var a := Start(w, partition);
            Enabled(log, s, a) && ByConsumer(a, w)
            && Do(log, s, a) == s.(consumers := Do(log, s, a).consumers)
            && ConsumerOf(Do(log, s, a), w) == Ready(partition, CommittedOf(s, partition))
  {
  }

  lemma DoFetch(log: seq<Record>, s: State, w: nat, partition: nat, next: nat, at: nat)
    requires ConsumerOf(s, w) == Ready(partition, next) && next <= at < |log| && log[at].partition == partition
    requires forall i :: next <= i < at ==> log[i].partition != partition
    ensures var a := Fetch(w, at);
            Enabled(log, s, a) && ByConsumer(a, w)
            && Do(log, s, a) == s.(consumers := Do(log, s, a).consumers)
            && ConsumerOf(Do(log, s, a), w) == Fetched(partition, at)
  {
  }

  lemma DoReject(log: seq<Record>, s: State, w: nat, partition: nat, at: nat)
    requires ConsumerOf(s, w) == Fetched(partition, at) && at < |log| && !Processable(log[at]) && Admissible(log, s, at)
    ensures var a := Reject(w);
            Enabled(log, s, a) && ByConsumer(a, w)
            && Do(log, s, a) == s.(consumers := Do(log, s, a).consumers,
                                   deadLetters := Ledger.RecordDeadLetter(s.deadLetters, at, LetterFor(log[at])))
            && ConsumerOf(Do(log, s, a), w) == Settled(partition, at)
  {
  }

  lemma DoClaim(log: seq<Record>, s: State, w: nat, partition: nat, at: nat)
    requires ConsumerOf(s, w) == Fetched(partition, at) && at < |log| && Processable(log[at]) && Admissible(log, s, at)
    ensures var a := Claim(w);
            var (ledger, shouldPersist) := Ledger.ClaimDelivery(s.ledger, KeyAt(log, at), EnvelopeAt(log, at).tenantId);
            Enabled(log, s, a) && ByConsumer(a, w)
            && Do(log, s, a) == s.(consumers := Do(log, s, a).consumers, ledger := ledger)
            && ConsumerOf(Do(log, s, a), w) == if shouldPersist then Claimed(partition, at) else Settled(partition, at)
  {
  }

  lemma DoPersist(log: seq<Record>, s: State, w: nat, partition: nat, at: nat, reported: bool)
    requires ConsumerOf(s, w) == Claimed(partition, at) && at < |log| && Processable(log[at])
    ensures var a := Persist(w, reported);
            Enabled(log, s, a) && ByConsumer(a, w)
            && Do(log, s, a) == s.(consumers := Do(log, s, a).consumers, sink := s.sink + [RowOf(EnvelopeAt(log, at))])
            && ConsumerOf(Do(log, s, a), w) == if reported then Stored(partition, at) else Stopped
  {
  }

  lemma DoMarkPersisted(log: seq<Record>, s: State, w: nat, partition: nat, at: nat)
    requires ConsumerOf(s, w) == Stored(partition, at) && at < |log| && Processable(log[at])
    ensures var a := Action.MarkPersisted(w);
            Enabled(log, s, a) && ByConsumer(a, w)
            && if IsPending(s.ledger, KeyAt(log, at))
               then Do(log, s, a) == s.(consumers := Do(log, s, a).consumers,
                                        ledger := Ledger.MarkPersisted(s.ledger, KeyAt(log, at)))
                    && ConsumerOf(Do(log, s, a), w) == Settled(partition, at)
               else Do(log, s, a) == s.(consumers := Do(log, s, a).consumers)
  {
  }

  lemma DoCommit(log: seq<Record>, s: State, w: nat, partition: nat, at: nat)
    requires ConsumerOf(s, w) == Settled(partition, at)
    ensures var a := Commit(w);
            Enabled(log, s, a) && ByConsumer(a, w)
            && Do(log, s, a) == s.(consumers := Do(log, s, a).consumers, committed := s.committed[partition := at + 1])
            && ConsumerOf(Do(log, s, a), w) == Ready(partition, at + 1)
  {
  }

  class Consumer {
    const ledger: LedgerStore
    const world: World
    const partition: nat

    constructor (ledger: LedgerStore, world: World, partition: nat)
      ensures this.ledger == ledger && this.world == world && this.partition == partition
    {
      this.ledger, this.world, this.partition := ledger, world, partition;
    }

    // `s` is the delivery side as the machine sees it.
    ghost predicate Runs(s: State)
      reads ledger, world
    {
      && s.ledger == ledger.ledger && s.deadLetters == ledger.deadLetters && s.tenants == ledger.tenants
      && s.sink == world.sink && s.committed == world.committed
    }

    // consumer.go:103-115
    method Process(envelope: Envelope, ghost at: nat, ghost w: nat, ghost s: State, ghost before: seq<Action>,
                   ghost from: State)
      returns (ok: bool, ghost actions: seq<Action>, ghost t: State)
      requires at < |world.log| && Processable(world.log[at])
      requires var sent := EnvelopeAt(world.log, at);
               envelope == sent.(schemaVersion := NormalizedVersion(sent.schemaVersion))
      requires Leads(world.log, w, s, before, from) && Runs(from) && ConsumerOf(from, w) == Fetched(partition, at)
      modifies ledger`ledger, world`sink
      ensures Leads(world.log, w, s, actions, t) && Runs(t)
      ensures ok ==> ConsumerOf(t, w) == Settled(partition, at)
      ensures world.reliable ==> ok == Admissible(world.log, from, at)
      ensures !Admissible(world.log, from, at) ==> t == from
    {
      hide Enabled, Do, Leads, ByConsumer, ConsumerOf, Processable;
      ok, actions, t := false, before, from;
      var stopped := Interrupted(world.reliable);
      if stopped {
        return;
      }
      var claimed, shouldPersist := ledger.ClaimDelivery(envelope.eventKey, envelope.tenantId);
      if !claimed {
        return;
      }
      DoClaim(world.log, t, w, partition, at);
      LeadsFurther(world.log, w, s, actions, t, Claim(w));
      actions, t := actions + [Claim(w)], Do(world.log, t, Claim(w));
      stopped := Interrupted(world.reliable);
      if stopped {
        return;
      }
      if !shouldPersist {
        return true, actions, t;
      }
      ghost var stored;
      var persisted;
      persisted, stored := world.Persist(envelope);
      if stored {
        DoPersist(world.log, t, w, partition, at, persisted);
        LeadsFurther(world.log, w, s, actions, t, Persist(w, persisted));
        actions, t := actions + [Persist(w, persisted)], Do(world.log, t, Persist(w, persisted));
      }
      if !persisted {
        return;
      }
      var marked := ledger.MarkPersisted(envelope.eventKey);
      DoMarkPersisted(world.log, t, w, partition, at);
      LeadsFurther(world.log, w, s, actions, t, Action.MarkPersisted(w));
      actions, t := actions + [Action.MarkPersisted(w)], Do(world.log, t, Action.MarkPersisted(w));
      stopped := Interrupted(world.reliable);
      ok := marked && !stopped;
    }

    // consumer.go:84-91
    method DeadLetter(at: nat, envelope: Envelope, reason: Reason) returns (ok: bool)
      modifies ledger`deadLetters
      ensures var letter := Ledger.DeadLetter.DeadLetter(NullIfEmpty(envelope.tenantId), NullIfEmpty(envelope.eventKey),
                                                         envelope.schemaVersion, reason);
              && ok == MayRecord(ledger.tenants, old(ledger.deadLetters), at, letter)
              && ledger.deadLetters == if ok then Ledger.RecordDeadLetter(old(ledger.deadLetters), at, letter)
                                       else old(ledger.deadLetters)
    {
      ok := ledger.RecordDeadLetter(at, envelope.tenantId, envelope.eventKey, envelope.schemaVersion, reason);
    }

    // consumer.go:47-70, for the fetched record.
    method Handle(at: nat, ghost w: nat, ghost s: State, ghost before: seq<Action>, ghost from: State)
      returns (ok: bool, ghost actions: seq<Action>, ghost t: State)
      requires at < |world.log| && Leads(world.log, w, s, before, from) && Runs(from)
      requires ConsumerOf(from, w) == Fetched(partition, at)
      modifies ledger, world`sink
      ensures Leads(world.log, w, s, actions, t) && Runs(t)
      ensures ok ==> ConsumerOf(t, w) == Settled(partition, at)
      ensures world.reliable ==> ok == Admissible(world.log, from, at)
      ensures !Admissible(world.log, from, at) ==> t == from
    {
      hide Enabled, Do, Leads, ByConsumer, ConsumerOf;
      ok, actions, t := false, before, from;
      var payload := world.log[at].payload;
      var envelope := if payload.Decoded? then payload.envelope else payload.partial;
      if payload.Undecodable? || envelope.eventKey == "" || envelope.tenantId == "" {
        ok := DeadLetter(at, envelope, MalformedEnvelope);
      } else {
        envelope := envelope.(schemaVersion := NormalizedVersion(envelope.schemaVersion));
        if envelope.schemaVersion == PREVIOUS_ENVELOPE_VERSION || envelope.schemaVersion == CURRENT_ENVELOPE_VERSION {
          ok, actions, t := Process(envelope, at, w, s, before, from);
          return;
        }
        ok := DeadLetter(at, envelope, UnknownSchemaVersion);
      }
      if !ok {
        return;
      }
      DoReject(world.log, t, w, partition, at);
      LeadsFurther(world.log, w, s, actions, t, Reject(w));
      actions, t := actions + [Reject(w)], Do(world.log, t, Reject(w));
      var stopped := Interrupted(world.reliable);
      ok := !stopped;
    }

    // consumer.go:41-75, over the records there are. Undisturbed, it settles and
    // commits every one of them, up to the first that the tables do not admit.
    method Run(ghost w: nat, ghost s: State) returns (ok: bool, ghost actions: seq<Action>, ghost t: State)
      requires Runs(s) && ConsumerOf(s, w).Stopped? && CommittedOf(s, partition) <= |world.log|
      modifies ledger, world
      ensures Leads(world.log, w, s, actions, t) && Runs(t)
      ensures world.reliable && Committed(world.log, s) ==>
                if ok then
                  forall i: nat :: i < |world.log| && world.log[i].partition == partition ==>
                    Done(world.log, t, i) && i < CommittedOf(t, partition)
                else
                  exists at: nat :: StuckAt(world.log, t, partition, at)
    {
      hide Enabled, Do, Leads, ByConsumer, Committed, Done, Processable, Admissible;
      var next := if partition in world.committed then world.committed[partition] else 0;
      LeadsNowhere(world.log, w, s);
      DoStart(world.log, s, w, partition);
      LeadsFurther(world.log, w, s, [], s, Start(w, partition));
      ok, actions, t := true, [] + [Start(w, partition)], Do(world.log, s, Start(w, partition));
      while true
        invariant Leads(world.log, w, s, actions, t) && Runs(t) && ok
        invariant next <= |world.log| && ConsumerOf(t, w) == Ready(partition, next) && next == CommittedOf(t, partition)
        decreases |world.log| - next
      {
        var fetched := world.FetchMessage(partition, next);
        if fetched.None? {
          break;
        }
        var at := fetched.value;
        DoFetch(world.log, t, w, partition, next, at);
        LeadsFurther(world.log, w, s, actions, t, Fetch(w, at));
        actions, t := actions + [Fetch(w, at)], Do(world.log, t, Fetch(w, at));
        ok, actions, t := Handle(at, w, s, actions, t);
        if !ok {
          if world.reliable && Committed(world.log, s) {
            FetchedIsStuck(world.log, w, s, actions, t, partition, at);
          }
          return;
        }
        world.committed := world.committed[partition := at + 1];
        DoCommit(world.log, t, w, partition, at);
        LeadsFurther(world.log, w, s, actions, t, Commit(w));
        actions, t := actions + [Commit(w)], Do(world.log, t, Commit(w));
        var stopped := Interrupted(world.reliable);
        if stopped {
          return false, actions, t;
        }
        next := at + 1;
      }
      if world.reliable && Committed(world.log, s) {
        SettledBelow(world.log, w, s, actions, t, partition, next);
      }
    }
  }
}
