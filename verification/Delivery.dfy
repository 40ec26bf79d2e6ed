// The persistence workers of internal/telemetry/consumer.go as a state machine
// over a growing broker log. Any number of workers may read the same partition
// at once, and each may stop between any two steps.
module Delivery {
  import opened Telemetry
  import opened Broker
  import L = Ledger

  // `at` is the record being handled; every earlier record of the partition was
  // settled by this worker or was below the committed offset when it started.
  datatype Consumer =
    | Stopped
    | Ready(partition: nat, next: nat)
    | Fetched(partition: nat, at: nat)
    | Claimed(partition: nat, at: nat)
    | Stored(partition: nat, at: nat)
    | Settled(partition: nat, at: nat)

  datatype State = State(
    consumers: map<nat, Consumer>,
    committed: map<nat, nat>,
    ledger: L.Rows,
    deadLetters: map<nat, L.DeadLetter>,
    sink: seq<L.SpanRow>,
    tenants: set<string>)

  const INITIAL := State(map[], map[], map[], map[], [], {})

  function ConsumerOf(s: State, w: nat): Consumer {
    if w in s.consumers then s.consumers[w] else Stopped
  }

  function CommittedOf(s: State, partition: nat): nat {
    if partition in s.committed then s.committed[partition] else 0
  }

  datatype Action =
    | Start(w: nat, partition: nat)
    | Fetch(w: nat, at: nat)
    | Reject(w: nat)
    | Claim(w: nat)
    | Persist(w: nat, reported: bool)
    | MarkPersisted(w: nat)
    | Commit(w: nat)
    | Stop(w: nat)
    | RecordLoss(key: string)
    | CreateTenant(tenant: string)

  // Steps that no worker takes.
  predicate ByOthers(a: Action) {
    a.RecordLoss? || a.CreateTenant?
  }

  // The tables accept what the record asks for.
  predicate Admissible(log: seq<Record>, s: State, at: nat)
    requires at < |log|
  {
    if Processable(log[at]) then L.MayClaim(s.tenants, s.ledger, KeyAt(log, at), EnvelopeAt(log, at).tenantId)
    else L.MayRecord(s.tenants, s.deadLetters, at, L.LetterFor(log[at]))
  }

  ghost predicate Enabled(log: seq<Record>, s: State, a: Action) {
    match a
    case Start(w, partition) => ConsumerOf(s, w).Stopped? && CommittedOf(s, partition) <= |log|
    case Fetch(w, at) =>
      var c := ConsumerOf(s, w);
      && c.Ready? && c.next <= at < |log| && log[at].partition == c.partition
      && forall i :: c.next <= i < at ==> log[i].partition != c.partition
    case Reject(w) =>
      var c := ConsumerOf(s, w);
      c.Fetched? && c.at < |log| && !Processable(log[c.at]) && Admissible(log, s, c.at)
    case Claim(w) =>
      var c := ConsumerOf(s, w);
      c.Fetched? && c.at < |log| && Processable(log[c.at]) && Admissible(log, s, c.at)
    case Persist(w, reported) =>
      var c := ConsumerOf(s, w);
      c.Claimed? && c.at < |log| && Processable(log[c.at])
    case MarkPersisted(w) =>
      var c := ConsumerOf(s, w);
      c.Stored? && c.at < |log| && Processable(log[c.at])
    case Commit(w) => ConsumerOf(s, w).Settled?
    case Stop(w) => true
    case RecordLoss(key) => true
    case CreateTenant(tenant) => true
  }

  function EnvelopeAt(log: seq<Record>, at: nat): Envelope
    requires at < |log| && Processable(log[at])
  {
    log[at].payload.envelope
  }

  function KeyAt(log: seq<Record>, at: nat): string
    requires at < |log| && Processable(log[at])
  {
    log[at].payload.envelope.eventKey
  }

  ghost function Do(log: seq<Record>, s: State, a: Action): State
    requires Enabled(log, s, a)
  {
    match a
    case Start(w, partition) => s.(consumers := s.consumers[w := Ready(partition, CommittedOf(s, partition))])
    case Fetch(w, at) => s.(consumers := s.consumers[w := Fetched(ConsumerOf(s, w).partition, at)])
    case Reject(w) =>
      var c := ConsumerOf(s, w);
      s.(consumers := s.consumers[w := Settled(c.partition, c.at)],
         deadLetters := L.RecordDeadLetter(s.deadLetters, c.at, L.LetterFor(log[c.at])))
    case Claim(w) =>
      var c := ConsumerOf(s, w);
      var (ledger, shouldPersist) := L.ClaimDelivery(s.ledger, KeyAt(log, c.at), EnvelopeAt(log, c.at).tenantId);
      var next := if shouldPersist then Claimed(c.partition, c.at) else Settled(c.partition, c.at);
      s.(consumers := s.consumers[w := next], ledger := ledger)
    case Persist(w, reported) =>
      var c := ConsumerOf(s, w);
      s.(consumers := s.consumers[w := if reported then Stored(c.partition, c.at) else Stopped],
         sink := s.sink + [L.RowOf(EnvelopeAt(log, c.at))])
    case MarkPersisted(w) =>
      var c := ConsumerOf(s, w);
      if L.IsPending(s.ledger, KeyAt(log, c.at)) then
        s.(consumers := s.consumers[w := Settled(c.partition, c.at)],
           ledger := L.MarkPersisted(s.ledger, KeyAt(log, c.at)))
      else s.(consumers := s.consumers[w := Stopped])
    case Commit(w) =>
      var c := ConsumerOf(s, w);
      s.(consumers := s.consumers[w := Ready(c.partition, c.at + 1)], committed := s.committed[c.partition := c.at + 1])
    case Stop(w) => s.(consumers := s.consumers[w := Stopped])
    case RecordLoss(key) => s.(ledger := L.RecordLoss(s.ledger, key))
    case CreateTenant(tenant) => s.(tenants := s.tenants + {tenant})
  }

  // ---------- commit after effect ----------

  // The record has its durable effect: a terminal ledger row or a dead letter.
  predicate Done(log: seq<Record>, s: State, i: nat)
    requires i < |log|
  {
    if Processable(log[i]) then L.Terminal(s.ledger, KeyAt(log, i)) else i in s.deadLetters
  }

  ghost predicate DoneBelow(log: seq<Record>, s: State, partition: nat, bound: nat) {
    bound <= |log| && forall i: nat :: i < bound && log[i].partition == partition ==> Done(log, s, i)
  }

  function StoredKeys(sink: seq<L.SpanRow>): set<string> {
    set row | row in sink :: row.key
  }

  ghost predicate ConsumerOk(log: seq<Record>, s: State, c: Consumer) {
    if c.Stopped? then true
    else if c.Ready? then DoneBelow(log, s, c.partition, c.next)
    else
      && c.at < |log| && log[c.at].partition == c.partition
      && DoneBelow(log, s, c.partition, c.at)
      && (c.Claimed? || c.Stored? ==> Processable(log[c.at]) && KeyAt(log, c.at) in s.ledger)
      && (c.Stored? ==> KeyAt(log, c.at) in StoredKeys(s.sink))
      && (c.Settled? ==> Done(log, s, c.at))
  }

  ghost predicate Committed(log: seq<Record>, s: State) {
    && (forall w :: w in s.consumers ==> ConsumerOk(log, s, s.consumers[w]))
    && (forall p :: p in s.committed ==> DoneBelow(log, s, p, s.committed[p]))
    && (forall k :: k in s.ledger && s.ledger[k].status.Persisted? ==> k in StoredKeys(s.sink))
    && (forall i :: i in s.deadLetters ==> i < |log| && !Processable(log[i]) && s.deadLetters[i] == L.LetterFor(log[i]))
  }

  // Steps never undo an effect.
  ghost predicate EffectsKept(s: State, t: State) {
    && (forall k :: L.Terminal(s.ledger, k) ==> L.Terminal(t.ledger, k))
    && (forall k :: k in s.ledger ==> k in t.ledger)
    && (forall i :: i in s.deadLetters ==> i in t.deadLetters)
    && (forall k :: k in StoredKeys(s.sink) ==> k in StoredKeys(t.sink))
  }

  lemma ConsumerStaysOk(log: seq<Record>, s: State, t: State, c: Consumer)
    requires ConsumerOk(log, s, c) && EffectsKept(s, t)
    ensures ConsumerOk(log, t, c)
  {
  }

  lemma StepKeepsEffects(log: seq<Record>, s: State, a: Action)
    requires Enabled(log, s, a)
    ensures EffectsKept(s, Do(log, s, a))
  {
  }

  lemma StepConsumersOk(log: seq<Record>, s: State, a: Action)
    requires Enabled(log, s, a) && Committed(log, s)
    ensures var t := Do(log, s, a); forall w :: w in t.consumers ==> ConsumerOk(log, t, t.consumers[w])
  {
    var t := Do(log, s, a);
    StepKeepsEffects(log, s, a);
    forall w | w in t.consumers ensures ConsumerOk(log, t, t.consumers[w]) {
      if w in s.consumers && t.consumers[w] == s.consumers[w] {
        ConsumerStaysOk(log, s, t, s.consumers[w]);
      }
    }
  }

  lemma StepOffsetsDone(log: seq<Record>, s: State, a: Action)
    requires Enabled(log, s, a) && Committed(log, s)
    ensures var t := Do(log, s, a); forall p :: p in t.committed ==> DoneBelow(log, t, p, t.committed[p])
  {
    StepKeepsEffects(log, s, a);
  }

  lemma StepRecordsTrue(log: seq<Record>, s: State, a: Action)
    requires Enabled(log, s, a) && Committed(log, s)
    ensures var t := Do(log, s, a);
            && (forall k :: k in t.ledger && t.ledger[k].status.Persisted? ==> k in StoredKeys(t.sink))
            && (forall i :: i in t.deadLetters ==>
                  i < |log| && !Processable(log[i]) && t.deadLetters[i] == L.LetterFor(log[i]))
  {
    StepKeepsEffects(log, s, a);
    hide L.LetterFor;
  }

  lemma StepCommitted(log: seq<Record>, s: State, a: Action)
    requires Enabled(log, s, a) && Committed(log, s)
    ensures Committed(log, Do(log, s, a))
  {
    hide Enabled, Do, ConsumerOk, DoneBelow;
    StepConsumersOk(log, s, a);
    StepOffsetsDone(log, s, a);
    StepRecordsTrue(log, s, a);
  }

  // Appending to the log disturbs nothing.
  lemma AppendCommitted(log: seq<Record>, r: Record, s: State)
    requires Committed(log, s)
    ensures Committed(log + [r], s)
  {
  }

  // ---------- what is stored ----------

  function RowsFor(sink: seq<L.SpanRow>, k: string): nat {
    if sink == [] then 0 else RowsFor(sink[..|sink| - 1], k) + if sink[|sink| - 1].key == k then 1 else 0
  }

  function AttemptsOf(s: State, k: string): nat {
    if k in s.ledger then s.ledger[k].attempts else 0
  }

  ghost predicate PersistsNow(log: seq<Record>, c: Consumer, k: string) {
    c.Claimed? && c.at < |log| && Processable(log[c.at]) && KeyAt(log, c.at) == k
  }

  ghost function Persisting(log: seq<Record>, s: State, k: string): set<nat> {
    set w | w in s.consumers && PersistsNow(log, s.consumers[w], k)
  }

  ghost predicate HasSource(log: seq<Record>, row: L.SpanRow) {
    exists i: nat :: i < |log| && Processable(log[i]) && row == L.RowOf(EnvelopeAt(log, i))
  }

  // Every stored row is the row of some delivered envelope, and rows plus
  // persists under way never outnumber the attempts in the ledger.
  ghost predicate RowsAccounted(log: seq<Record>, s: State) {
    && (forall row :: row in s.sink ==> HasSource(log, row))
    && (forall k :: RowsFor(s.sink, k) + |Persisting(log, s, k)| <= AttemptsOf(s, k))
  }

  lemma RowsForGrow(sink: seq<L.SpanRow>, row: L.SpanRow, k: string)
    ensures RowsFor(sink + [row], k) == RowsFor(sink, k) + if row.key == k then 1 else 0
  {
    assert (sink + [row])[..|sink|] == sink;
  }

  // One worker changes: the persists under way grow by at most that worker.
  lemma PersistingChanges(log: seq<Record>, s: State, t: State, w: nat, k: string)
    requires forall v :: v in t.consumers && v != w ==> v in s.consumers && t.consumers[v] == s.consumers[v]
    ensures |Persisting(log, t, k)| <= |Persisting(log, s, k)| + 1
    ensures w !in Persisting(log, t, k) ==> |Persisting(log, t, k)| <= |Persisting(log, s, k)|
    ensures w in Persisting(log, s, k) && w !in Persisting(log, t, k) ==>
              |Persisting(log, t, k)| <= |Persisting(log, s, k)| - 1
  {
    SubsetIsNoLarger(Persisting(log, t, k) - {w}, Persisting(log, s, k) - {w});
    SubsetIsNoLarger(Persisting(log, s, k) - {w}, Persisting(log, s, k));
  }

  lemma ClaimRowsFor(log: seq<Record>, s: State, a: Action, k: string)
    requires a.Claim? && Enabled(log, s, a)
    requires RowsFor(s.sink, k) + |Persisting(log, s, k)| <= AttemptsOf(s, k)
    ensures var t := Do(log, s, a); RowsFor(t.sink, k) + |Persisting(log, t, k)| <= AttemptsOf(t, k)
  {
    hide Admissible, L.LetterFor, L.RecordDeadLetter, CommittedOf, SupportedVersion, RowsFor;
    PersistingChanges(log, s, Do(log, s, a), a.w, k);
  }

  lemma PersistRowsFor(log: seq<Record>, s: State, a: Action, k: string)
    requires a.Persist? && Enabled(log, s, a)
    requires RowsFor(s.sink, k) + |Persisting(log, s, k)| <= AttemptsOf(s, k)
    ensures var t := Do(log, s, a); RowsFor(t.sink, k) + |Persisting(log, t, k)| <= AttemptsOf(t, k)
  {
    hide Admissible, L.LetterFor, L.RecordDeadLetter, CommittedOf, SupportedVersion, RowsFor;
    PersistingChanges(log, s, Do(log, s, a), a.w, k);
    RowsForGrow(s.sink, L.RowOf(EnvelopeAt(log, ConsumerOf(s, a.w).at)), k);
  }

  lemma StepRowsFor(log: seq<Record>, s: State, a: Action, k: string)
    requires Enabled(log, s, a)
    requires RowsFor(s.sink, k) + |Persisting(log, s, k)| <= AttemptsOf(s, k)
    ensures var t := Do(log, s, a); RowsFor(t.sink, k) + |Persisting(log, t, k)| <= AttemptsOf(t, k)
  {
    hide Admissible, L.LetterFor, L.RecordDeadLetter, CommittedOf, SupportedVersion, RowsFor, L.ClaimDelivery;
    var t := Do(log, s, a);
    if ByOthers(a) {
      assert Persisting(log, t, k) == Persisting(log, s, k);
    } else if a.Claim? {
      ClaimRowsFor(log, s, a, k);
    } else if a.Persist? {
      PersistRowsFor(log, s, a, k);
    } else {
      PersistingChanges(log, s, t, a.w, k);
    }
  }

  lemma StepRows(log: seq<Record>, s: State, a: Action)
    requires Enabled(log, s, a) && RowsAccounted(log, s)
    ensures RowsAccounted(log, Do(log, s, a))
  {
    forall k ensures var t := Do(log, s, a); RowsFor(t.sink, k) + |Persisting(log, t, k)| <= AttemptsOf(t, k) {
      StepRowsFor(log, s, a, k);
    }
    if a.Persist? {
      StoredRowsHaveSource(log, s, ConsumerOf(s, a.w).at);
    }
  }

  lemma StoredRowsHaveSource(log: seq<Record>, s: State, at: nat)
    requires RowsAccounted(log, s) && at < |log| && Processable(log[at])
    ensures forall row :: row in s.sink + [L.RowOf(EnvelopeAt(log, at))] ==> HasSource(log, row)
  {
  }

  lemma AppendRows(log: seq<Record>, r: Record, s: State)
    requires Committed(log, s) && RowsAccounted(log, s)
    ensures RowsAccounted(log + [r], s)
  {
    var longer := log + [r];
    forall row | row in s.sink ensures HasSource(longer, row) {
      assert HasSource(log, row);
      var i: nat :| i < |log| && Processable(log[i]) && row == L.RowOf(EnvelopeAt(log, i));
      assert longer[i] == log[i];
    }
    forall k ensures Persisting(longer, s, k) == Persisting(log, s, k) {
      AppendKeepsPersisting(log, r, s, k);
    }
  }

  lemma AppendKeepsPersisting(log: seq<Record>, r: Record, s: State, k: string)
    requires Committed(log, s)
    ensures Persisting(log + [r], s, k) == Persisting(log, s, k)
  {
    var longer := log + [r];
    forall w | w in s.consumers ensures PersistsNow(longer, s.consumers[w], k) == PersistsNow(log, s.consumers[w], k) {
      assert ConsumerOk(log, s, s.consumers[w]);
    }
  }
}
