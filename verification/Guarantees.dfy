// The platform's promises, as theorems about every reachable state.
module Guarantees {
  import opened Telemetry
  import opened Sampling
  import opened TailTables
  import opened TailInvariants
  import opened Broker
  import opened Pipeline
  import T = TailMachine
  import TailSafety
  import TailExact
  import TailSends
  import H = History
  import TailCounting
  import Tenancy
  import RowLaws
  import D = Delivery
  import F = FirstDelivery
  import L = Ledger
  import A = Admission

  // ---------- every run, deletions included ----------

  // A processable record of the key is in the log.
  ghost predicate Logged(log: seq<Record>, k: string) {
    exists i :: 0 <= i < |log| && IsOrderly(log[i].payload) && log[i].payload.envelope.eventKey == k
  }

  ghost predicate HeldOpen(s: Tables, k: string) {
    || (k in s.buffers && s.buffers[k].home in s.traces && s.traces[s.buffers[k].home].status.Undecided?)
    || (k in s.outbox && s.outbox[k].publishedAt.None?)
  }

  // No key of an acknowledged batch is lost without evidence. At the end of every
  // run it is buffered in an undecided trace, awaits publishing, or is in the log; or
  // a step of the run recorded a decision against its trace; or a step was a deletion
  // for the tenant of the key's own row.
  lemma NoSilentLoss(u: T.Setup, actions: seq<Action>)
    requires TailSafety.MadeIsProcessable(u) && Run(u, INITIAL, actions)
    ensures var s, states, n := After(u, INITIAL, actions).tail, H.States(u, actions), |actions|;
            forall k, i :: 0 <= i < n && H.Acknowledges(u, states[i], actions[i], k) ==>
              || HeldOpen(s.db, k)
              || Logged(s.log, k)
              || (exists j :: H.DroppedAt(states, k, j, n))
              || (exists j :: H.ErasedAt(states, actions, k, j, n))
    ensures Settled(After(u, INITIAL, actions))
  {
    var s, states, n := After(u, INITIAL, actions), H.States(u, actions), |actions|;
    H.RunIsPath(u, actions);
    assert Reachable(u, s);
    NothingUnaccounted(u, s);
    EverythingSettled(u, s);
    hide Run, After, TailSafety.MadeIsProcessable, H.Acknowledges, H.DroppedAt, H.ErasedAt, H.Path, Reachable, H.States;
    hide Settled;
    forall k, i | 0 <= i < n && H.Acknowledges(u, states[i], actions[i], k)
      ensures HeldOpen(s.tail.db, k) || Logged(s.tail.log, k) || (exists j :: H.DroppedAt(states, k, j, n))
              || exists j :: H.ErasedAt(states, actions, k, j, n)
    {
      H.AcknowledgedIsAcked(u, states, actions, k, n);
      if k in s.tail.dropped {
        H.DroppedHasEvidence(u, states, actions, k, n);
      } else if k in s.tail.erased {
        H.ErasedHasEvidence(u, states, actions, k, n);
      } else {
        DeliveredIsLogged(s.tail.log, k);
      }
    }
  }

  predicate IsOrderly(payload: Payload) {
    && payload.Decoded? && payload.envelope.eventKey != "" && payload.envelope.tenantId != ""
    && payload.envelope.schemaVersion in {0, 1, 2}
  }

  // Below the committed offset of its partition, a record that can be processed has
  // a final ledger row, and any other a dead letter; what the ledger calls persisted
  // is stored.
  ghost predicate Settled(s: State) {
    var log, d := s.tail.log, s.delivery;
    && (forall i: nat :: i < |log| && log[i].partition in d.committed && i < d.committed[log[i].partition] ==>
          if IsOrderly(log[i].payload)
          then var key := log[i].payload.envelope.eventKey; key in d.ledger && d.ledger[key].status != L.Pending
          else i in d.deadLetters)
    && (forall k :: k in d.ledger && d.ledger[k].status == L.Persisted ==>
          exists row :: row in d.sink && row.key == k)
  }

  lemma DeliveredIsLogged(log: seq<Record>, k: string)
    ensures k in TailSafety.Delivered(log) ==> Logged(log, k)
  {
  }

  // The same of the history sets; and the committed offset of a partition passes a
  // record only after its durable effect.
  lemma NothingUnaccounted(u: T.Setup, s: State)
    requires TailSafety.MadeIsProcessable(u) && Reachable(u, s)
    ensures forall k :: k in s.tail.acked ==>
              || (k in s.tail.db.buffers && Active(s.tail.db, s.tail.db.buffers[k].home))
              || (k in s.tail.db.outbox && s.tail.db.outbox[k].publishedAt.None?)
              || k in TailSafety.Delivered(s.tail.log)
              || k in s.tail.dropped
              || k in s.tail.erased
    ensures forall i: nat :: i < |s.tail.log| && i < D.CommittedOf(s.delivery, s.tail.log[i].partition) ==>
              if Processable(s.tail.log[i]) then L.Terminal(s.delivery.ledger, D.KeyAt(s.tail.log, i))
              else i in s.delivery.deadLetters
    ensures forall k :: k in s.delivery.ledger && s.delivery.ledger[k].status.Persisted? ==>
              k in D.StoredKeys(s.delivery.sink)
  {
    ReachableIsSafe(u, s);
    hide Reachable, TailSafety.MadeIsProcessable;
    forall k | k in s.tail.acked && k in s.tail.db.buffers ensures Active(s.tail.db, s.tail.db.buffers[k].home) {}
    forall i: nat | i < |s.tail.log| && i < D.CommittedOf(s.delivery, s.tail.log[i].partition)
      ensures D.Done(s.tail.log, s.delivery, i)
    {
      assert D.DoneBelow(s.tail.log, s.delivery, s.tail.log[i].partition,
                         s.delivery.committed[s.tail.log[i].partition]);
    }
  }

  lemma EverythingSettled(u: T.Setup, s: State)
    requires TailSafety.MadeIsProcessable(u) && Reachable(u, s)
    ensures Settled(s)
  {
    hide TailSafety.MadeIsProcessable, Reachable;
    NothingUnaccounted(u, s);
  }

  // A message marked published has reached the broker.
  lemma PublishBeforeMark(u: T.Setup, s: State, k: string)
    requires TailSafety.MadeIsProcessable(u) && Reachable(u, s)
    requires k in s.tail.db.outbox && s.tail.db.outbox[k].publishedAt.Some?
    ensures k in TailSafety.Delivered(s.tail.log)
  {
    hide Reachable, TailSafety.MadeIsProcessable;
    ReachableIsSafe(u, s);
  }

  // Whatever the gateways establish about every envelope they stage holds of
  // every stored copy; and no such envelope is dead-lettered.
  lemma FactsReachEveryStore(u: T.Setup, s: State)
    requires TailSafety.MadeIsProcessable(u) && Reachable(u, s)
    ensures forall k :: k in s.tail.db.buffers ==> u.made(s.tail.db.buffers[k].envelope)
    ensures forall k :: k in s.tail.db.outbox ==> u.made(s.tail.db.outbox[k].envelope)
    ensures forall i :: 0 <= i < |s.tail.log| && Processable(s.tail.log[i]) ==> u.made(s.tail.log[i].payload.envelope)
    ensures forall row :: row in s.delivery.sink ==> exists e :: u.made(e) && L.Copies(row, e)
    ensures forall i :: i in s.delivery.deadLetters ==>
              i < |s.tail.log| && (s.tail.log[i].payload.Decoded? ==> !u.made(s.tail.log[i].payload.envelope))
  {
    hide Reachable;
    ReachableIsSafe(u, s);
    forall row | row in s.delivery.sink ensures exists e :: u.made(e) && L.Copies(row, e) {
      assert D.HasSource(s.tail.log, row);
      var i: nat :| i < |s.tail.log| && Processable(s.tail.log[i]) && row == L.RowOf(D.EnvelopeAt(s.tail.log, i));
      L.RowCopies(row, D.EnvelopeAt(s.tail.log, i));
      assert u.made(s.tail.log[i].payload.envelope);
    }
  }

  ghost predicate NothingOf(s: Tables, tenant: string) {
    && (forall id :: id in s.traces ==> id.tenant != tenant)
    && (forall k :: k in s.buffers ==> s.buffers[k].home.tenant != tenant)
    && (forall k :: k in s.keys ==> s.keys[k].home.tenant != tenant)
    && (forall id :: id in s.decisions ==> id.tenant != tenant)
    && (forall k :: k in s.outbox ==> s.outbox[k].tenant != tenant)
  }

  // Deleting a tenant leaves no row of it in any table, and every row of every other
  // tenant as it was; nothing else of the state changes but the history of erasures.
  lemma TenantDeletionIsExact(u: T.Setup, s: State, tenant: string, other: string)
    requires TailSafety.MadeIsProcessable(u) && Reachable(u, s) && other != tenant
    ensures var t := Do(u, s, Tail(T.TenantDeletion(tenant)));
            && NothingOf(t.tail.db, tenant) && Tenancy.SameFor(s.tail.db, t.tail.db, other)
            && t == s.(tail := s.tail.(db := t.tail.db, erased := t.tail.erased))
  {
    hide Reachable, TailSafety.MadeIsProcessable, DeleteTenant;
    ReachableIsSafe(u, s);
    RowLaws.TenantDeletionByRows(s.tail.db, tenant);
    DeletionSpares(s.tail.db, DeleteTenant(s.tail.db, tenant), tenant, other);
  }

  lemma DeletionSpares(s: Tables, t: Tables, tenant: string, other: string)
    requires BuffersOpen(s) && RowLaws.OnlyTenantGone(s, t, tenant) && other != tenant
    ensures NothingOf(t, tenant) && Tenancy.SameFor(s, t, other)
  {
  }

  lemma Capacity(u: T.Setup, s: State, tenant: string)
    requires TailSafety.MadeIsProcessable(u) && Reachable(u, s)
    ensures forall n: Shard :: |ActiveInShard(s.tail.db, u.shard, tenant, n)| <= 100
    ensures |TailCounting.ActiveOf(s.tail.db, tenant)| <= 1000
    ensures |set k | k in s.tail.db.buffers && s.tail.db.buffers[k].home.tenant == tenant| <= 200_000
    ensures forall id :: id in s.tail.db.traces && Active(s.tail.db, id) ==>
              && |BufferedIn(s.tail.db, id)| == s.tail.db.traces[id].spanCount <= 200
              && s.tail.db.traces[id].generation <= s.tail.db.traces[id].spanCount + 1
  {
    hide Reachable, TailSafety.MadeIsProcessable;
    ReachableIsSafe(u, s);
    TailCounting.TenantCapacity(s.tail.db, u.shard, tenant);
    forall id | id in s.tail.db.traces && Active(s.tail.db, id) ensures Counted(s.tail.db, id) {}
  }

  lemma DecisionsAndTracesAgree(u: T.Setup, s: State, id: TraceKey)
    requires TailSafety.MadeIsProcessable(u) && Reachable(u, s)
    ensures id in s.tail.db.decisions <==> id in s.tail.db.traces && s.tail.db.traces[id].status.Decided?
    ensures id in s.tail.db.decisions ==>
              s.tail.db.traces[id].status == Decided(s.tail.db.decisions[id].reason, s.tail.db.decisions[id].createdAt)
  {
    hide Reachable, TailSafety.MadeIsProcessable;
    ReachableIsSafe(u, s);
  }

  // The rows plus the persists under way never outnumber the ledger's attempts.
  lemma StoredDuplicatesBounded(u: T.Setup, s: State, k: string)
    requires TailSafety.MadeIsProcessable(u) && Reachable(u, s)
    ensures D.RowsFor(s.delivery.sink, k) + |D.Persisting(s.tail.log, s.delivery, k)| <= D.AttemptsOf(s.delivery, k)
  {
    hide Reachable, TailSafety.MadeIsProcessable;
    ReachableIsSafe(u, s);
  }

  // ---------- runs without deletion ----------

  predicate Buffered(s: State, k: string) {
    k in s.tail.db.buffers && Active(s.tail.db, s.tail.db.buffers[k].home)
  }

  predicate SampledAway(s: State, k: string) {
    k in s.tail.db.keys && T.DecidedAgainst(s.tail.db, s.tail.db.keys[k].home)
  }

  predicate AwaitsPublishing(s: State, k: string) {
    k in s.tail.db.outbox && s.tail.db.outbox[k].publishedAt.None?
  }

  predicate Published(s: State, k: string) {
    k in s.tail.db.outbox && s.tail.db.outbox[k].publishedAt.Some? && k in TailSafety.Delivered(s.tail.log)
  }

  function One(b: bool): nat {
    if b then 1 else 0
  }

  // Every acknowledged key is in exactly one place, each of them durable.
  lemma ExactlyOnePlace(u: T.Setup, s: State, k: string)
    requires TailSafety.MadeIsProcessable(u) && ReachableWithoutDeletion(u, s)
    requires k in s.tail.acked
    ensures One(Buffered(s, k)) + One(SampledAway(s, k)) + One(AwaitsPublishing(s, k)) + One(Published(s, k)) == 1
  {
    hide ReachableWithoutDeletion, TailSafety.MadeIsProcessable;
    ReachableIsExact(u, s);
    assert k in s.tail.db.keys;
  }

  // The decision on a trace is an eviction, or what the classifier says of all
  // the spans the trace ever accepted.
  lemma DecisionsJustified(u: T.Setup, s: State, id: TraceKey)
    requires TailSafety.MadeIsProcessable(u) && ReachableWithoutDeletion(u, s)
    requires id in s.tail.db.decisions
    ensures s.tail.db.decisions[id].reason.EvictedPressure?
            || s.tail.db.decisions[id].reason == Verdict(id.trace, AcceptedSpans(s.tail.db, id), u.config)
    ensures var spans := set k | k in s.tail.db.keys && s.tail.db.keys[k].home == id :: s.tail.db.keys[k].origin;
            s.tail.db.decisions[id].reason.EvictedPressure?
            || ReasonFits(id.trace, spans, u.config, s.tail.db.decisions[id].reason)
    ensures s.tail.db.decisions[id].spanCount == |RegisteredTo(s.tail.db, id)|
  {
    hide ReachableWithoutDeletion, TailSafety.MadeIsProcessable, ReasonFits;
    ReachableIsExact(u, s);
    VerdictByAttributes(id.trace, AcceptedSpans(s.tail.db, id), u.config);
    assert AcceptedSpans(s.tail.db, id)
           == set k | k in s.tail.db.keys && s.tail.db.keys[k].home == id :: s.tail.db.keys[k].origin;
  }

  lemma Conservation(u: T.Setup, s: State)
    requires TailSafety.MadeIsProcessable(u) && ReachableWithoutDeletion(u, s)
    ensures |s.tail.db.keys| == |s.tail.db.buffers| + |s.tail.db.outbox|
                                + TailCounting.SpanSum(s.tail.db, TailCounting.NotRetained(s.tail.db))
    ensures forall id :: id in s.tail.db.traces ==> s.tail.db.traces[id].spanCount == |RegisteredTo(s.tail.db, id)|
  {
    hide ReachableWithoutDeletion, TailSafety.MadeIsProcessable;
    ReachableIsExact(u, s);
    TailCounting.KeysConserved(s.tail.db, u.shard);
  }

  // Copies in the broker plus sends under way never outnumber the outbox attempts.
  lemma BrokerDuplicatesBounded(u: T.Setup, s: State, k: string)
    requires TailSafety.MadeIsProcessable(u) && ReachableWithoutDeletion(u, s)
    ensures TailSends.Sendings(s.tail, k) <= TailSends.AttemptsOf(s.tail.db, k)
  {
    hide Run, After, DeletionFree, TailSafety.MadeIsProcessable, TailSends.Sendings, TailSends.AttemptsOf;
    var actions :| Run(u, INITIAL, actions) && DeletionFree(actions) && s == After(u, INITIAL, actions);
    BrokerCopiesCounted(u, actions, k);
  }

  // How often a worker took the key from the outbox.
  function Takes(actions: seq<Action>, k: string): nat {
    if actions == [] then 0
    else (if actions[0].Tail? then TailSends.TakenBy(actions[0].tailAction, k) else 0) + Takes(actions[1..], k)
  }

  // In every run, deletions included, copies plus sends under way never outnumber
  // the takings of the key, which without deletion are the attempts of its row.
  lemma BrokerCopiesCounted(u: T.Setup, actions: seq<Action>, k: string)
    requires TailSafety.MadeIsProcessable(u) && Run(u, INITIAL, actions)
    ensures TailSends.Sendings(After(u, INITIAL, actions).tail, k) <= Takes(actions, k)
    ensures DeletionFree(actions) ==> Takes(actions, k) == TailSends.AttemptsOf(After(u, INITIAL, actions).tail.db, k)
  {
    InitiallyExact(u);
    assert TailSends.InFlight(INITIAL.tail, k) == {};
    hide Safe, Exact, Run, After, DeletionFree, TailSafety.MadeIsProcessable;
    RunCounts(u, INITIAL, actions, k);
    if DeletionFree(actions) {
      RunAttempts(u, INITIAL, actions, k);
    }
  }

  lemma {:induction false} RunCounts(u: T.Setup, s: State, actions: seq<Action>, k: string)
    requires TailSafety.MadeIsProcessable(u) && Safe(u, s) && TailSends.QueuesDistinct(s.tail) && Run(u, s, actions)
    ensures TailSends.Sendings(After(u, s, actions).tail, k) <= TailSends.Sendings(s.tail, k) + Takes(actions, k)
    decreases |actions|
  {
    hide Safe, T.Enabled, T.Do, TailSafety.MadeIsProcessable, TailSends.Sendings, TailSends.QueuesDistinct;
    if actions != [] {
      OneStepSafe(u, s, actions[0]);
      if actions[0].Tail? {
        SafeQueues(u, s);
        TailSends.StepCounts(u, s.tail, actions[0].tailAction, k);
      }
      RunCounts(u, Do(u, s, actions[0]), actions[1..], k);
    }
  }

  lemma SafeQueues(u: T.Setup, s: State)
    requires Safe(u, s)
    ensures TailSafety.QueuesMade(s.tail, u.made) && Sound(s.tail.db, u.shard)
  {
  }

  lemma {:induction false} RunAttempts(u: T.Setup, s: State, actions: seq<Action>, k: string)
    requires TailSafety.MadeIsProcessable(u) && Safe(u, s) && Run(u, s, actions) && DeletionFree(actions)
    ensures TailSends.AttemptsOf(After(u, s, actions).tail.db, k)
            == TailSends.AttemptsOf(s.tail.db, k) + Takes(actions, k)
    decreases |actions|
  {
    hide Safe, T.Enabled, T.Do, TailSafety.MadeIsProcessable, TailSends.AttemptsOf, T.Deletes;
    if actions != [] {
      OneStepSafe(u, s, actions[0]);
      if actions[0].Tail? {
        SafeQueues(u, s);
        TailSends.StepAttempts(u, s.tail, actions[0].tailAction, k);
      }
      RunAttempts(u, Do(u, s, actions[0]), actions[1..], k);
    }
  }

  // ---------- rows and views ----------

  type RowKey = (string, string)

  // "SELECT ... FINAL" on a ReplacingMergeTree ordered by (tenant_id, event_key):
  // one row per key, whichever of its copies the engine prefers.
  ghost predicate FinalView(sink: seq<L.SpanRow>, view: map<RowKey, L.SpanRow>) {
    && (forall row :: row in sink ==> (row.tenant, row.key) in view)
    && (forall p :: p in view ==> view[p] in sink && p == (view[p].tenant, view[p].key))
  }

  // A stored row is the accepted envelope, and its trace was retained.
  lemma StoredVerbatim(u: T.Setup, s: State, row: L.SpanRow)
    requires TailSafety.MadeIsProcessable(u) && ReachableWithoutDeletion(u, s)
    requires row in s.delivery.sink
    ensures row.key in s.tail.db.keys
    ensures row == L.RowOf(s.tail.db.keys[row.key].origin) && L.Copies(row, s.tail.db.keys[row.key].origin)
    ensures RetainedTrace(s.tail.db, s.tail.db.keys[row.key].home)
  {
    hide ReachableWithoutDeletion, TailSafety.MadeIsProcessable;
    ReachableIsExact(u, s);
    assert D.HasSource(s.tail.log, row);
    var i: nat :| i < |s.tail.log| && Processable(s.tail.log[i]) && row == L.RowOf(D.EnvelopeAt(s.tail.log, i));
    assert TailExact.FromOutbox(s.tail.db, s.tail.log[i].payload.envelope, row.key);
    L.RowCopies(row, s.tail.db.keys[row.key].origin);
  }

  // ---------- what a reader sees, in every run ----------

  // Whatever was deleted, sent again or stored twice: a stored row is the row of
  // the first record of its key that ever reached the broker.
  lemma StoredRowsAreFirst(u: T.Setup, s: State)
    requires TailSafety.MadeIsProcessable(u) && Reachable(u, s)
    ensures forall row :: row in s.delivery.sink ==> F.IsFirstRow(s.tail.log, row)
    ensures forall w :: w in s.delivery.consumers && s.delivery.consumers[w].Claimed? ==>
              F.IsFirst(s.tail.log, s.delivery.consumers[w].at)
  {
    hide Reachable, TailSafety.MadeIsProcessable;
    ReachableIsSafe(u, s);
  }

  // Duplicates are invisible: a view is a function of which keys are stored.
  lemma ViewIsUnique(u: T.Setup, s: State, view: map<RowKey, L.SpanRow>, other: map<RowKey, L.SpanRow>)
    requires TailSafety.MadeIsProcessable(u) && Reachable(u, s)
    requires FinalView(s.delivery.sink, view) && FinalView(s.delivery.sink, other)
    ensures view == other
  {
    hide Reachable, TailSafety.MadeIsProcessable, F.IsFirstRow;
    StoredRowsAreFirst(u, s);
    forall p | p in view || p in other ensures p in view && p in other && view[p] == other[p] {
      var row := if p in view then view[p] else other[p];
      assert (row.tenant, row.key) == p;
      F.OneRowPerKey(s.tail.log, view[p], other[p]);
    }
  }

  lemma CopyKeepsView(sink: seq<L.SpanRow>, copy: L.SpanRow, view: map<RowKey, L.SpanRow>)
    requires FinalView(sink, view) && copy in sink
    ensures FinalView(sink + [copy], view)
  {
  }

  lemma PersistAppends(u: T.Setup, s: State, w: nat, reported: bool)
    requires Enabled(u, s, Deliver(D.Persist(w, reported)))
    ensures w in s.delivery.consumers && s.delivery.consumers[w].Claimed?
    ensures Do(u, s, Deliver(D.Persist(w, reported))).delivery.sink
            == s.delivery.sink + [L.RowOf(D.EnvelopeAt(s.tail.log, D.ConsumerOf(s.delivery, w).at))]
  {
  }

  // Storing another copy of a stored key changes nothing a reader can see.
  lemma DuplicatePersistInvisible(u: T.Setup, s: State, w: nat, reported: bool, view: map<RowKey, L.SpanRow>)
    requires TailSafety.MadeIsProcessable(u) && Reachable(u, s)
    requires Enabled(u, s, Deliver(D.Persist(w, reported)))
    requires D.KeyAt(s.tail.log, D.ConsumerOf(s.delivery, w).at) in D.StoredKeys(s.delivery.sink)
    requires FinalView(s.delivery.sink, view)
    ensures FinalView(Do(u, s, Deliver(D.Persist(w, reported))).delivery.sink, view)
  {
    hide Reachable, TailSafety.MadeIsProcessable, Do, FinalView, F.IsFirst;
    var at := D.ConsumerOf(s.delivery, w).at;
    PersistAppends(u, s, w, reported);
    StoredRowsAreFirst(u, s);
    var copy := L.RowOf(D.EnvelopeAt(s.tail.log, at));
    var earlier :| earlier in s.delivery.sink && earlier.key == copy.key;
    assert F.IsFirstRow(s.tail.log, copy);
    F.OneRowPerKey(s.tail.log, copy, earlier);
    CopyKeepsView(s.delivery.sink, copy, view);
  }

  // Once the ledger has a terminal row for a key, rows of the key plus persists
  // under way never grow again, however often the event is sent.
  lemma {:induction false} TerminalKeysStopGrowing(u: T.Setup, s: State, actions: seq<Action>, k: string)
    requires TailSafety.MadeIsProcessable(u) && Safe(u, s) && Run(u, s, actions) && L.Terminal(s.delivery.ledger, k)
    ensures var t := After(u, s, actions);
            && L.Terminal(t.delivery.ledger, k)
            && D.RowsFor(t.delivery.sink, k) + |D.Persisting(t.tail.log, t.delivery, k)|
               <= D.RowsFor(s.delivery.sink, k) + |D.Persisting(s.tail.log, s.delivery, k)|
    decreases |actions|
  {
    hide Safe, Enabled, Do, TailSafety.MadeIsProcessable, L.Terminal;
    if actions != [] {
      TerminalStep(u, s, actions[0], k);
      OneStepSafe(u, s, actions[0]);
      TerminalKeysStopGrowing(u, Do(u, s, actions[0]), actions[1..], k);
    }
  }

  lemma OneStepSafe(u: T.Setup, s: State, a: Action)
    requires TailSafety.MadeIsProcessable(u) && Safe(u, s) && Enabled(u, s, a)
    ensures Safe(u, Do(u, s, a))
  {
    hide Safe, Enabled, Do, TailSafety.MadeIsProcessable;
    assert [a][1..] == [] && Run(u, Do(u, s, a), []) && After(u, Do(u, s, a), []) == Do(u, s, a);
    RunSafe(u, s, [a]);
  }

  lemma TerminalStep(u: T.Setup, s: State, a: Action, k: string)
    requires Safe(u, s) && Enabled(u, s, a) && L.Terminal(s.delivery.ledger, k)
    ensures var t := Do(u, s, a);
            && L.Terminal(t.delivery.ledger, k)
            && D.RowsFor(t.delivery.sink, k) + |D.Persisting(t.tail.log, t.delivery, k)|
               <= D.RowsFor(s.delivery.sink, k) + |D.Persisting(s.tail.log, s.delivery, k)|
  {
    SafeCommitted(u, s);
    hide Safe, D.Committed, D.Persisting, L.Terminal;
    match a
    case Tail(b) =>
      LogOnlyGrows(u, s.tail, b);
      if T.Do(u, s.tail, b).log != s.tail.log {
        var r :| T.Do(u, s.tail, b).log == s.tail.log + [r] && F.Partitioned([r], u.partitionOf);
        D.AppendKeepsPersisting(s.tail.log, r, s.delivery, k);
      }
    case Deliver(b) => F.TerminalStopsGrowth(s.tail.log, s.delivery, b, k);
  }

  lemma SafeCommitted(u: T.Setup, s: State)
    requires Safe(u, s)
    ensures D.Committed(s.tail.log, s.delivery)
  {
  }

  // ---------- what a reader sees once everything is delivered ----------

  // Nothing is left to do, and no loss was recorded by an operator.
  ghost predicate Drained(s: State) {
    && s.tail.db.buffers == map[]
    && (forall k :: k in s.tail.db.outbox ==> s.tail.db.outbox[k].publishedAt.Some?)
    && (forall i: nat :: i < |s.tail.log| ==> i < D.CommittedOf(s.delivery, s.tail.log[i].partition))
    && (forall k :: k in s.delivery.ledger ==> !s.delivery.ledger[k].status.LossEvidenced?)
  }

  lemma PublishedIsLogged(u: T.Setup, s: State, k: string)
    requires Exact(u, s) && k in s.tail.db.outbox && s.tail.db.outbox[k].publishedAt.Some?
    ensures k in TailSafety.Delivered(s.tail.log)
  {
  }

  lemma RetainedIsInOutbox(u: T.Setup, s: State, k: string)
    requires Exact(u, s) && k in s.tail.db.keys && RetainedTrace(s.tail.db, s.tail.db.keys[k].home)
    ensures k in s.tail.db.outbox
  {
  }

  lemma CommittedIsDone(u: T.Setup, s: State, i: nat)
    requires Exact(u, s) && i < |s.tail.log| && i < D.CommittedOf(s.delivery, s.tail.log[i].partition)
    ensures D.Done(s.tail.log, s.delivery, i)
  {
    assert D.DoneBelow(s.tail.log, s.delivery, s.tail.log[i].partition, s.delivery.committed[s.tail.log[i].partition]);
  }

  lemma PersistedIsStored(u: T.Setup, s: State, k: string)
    requires Exact(u, s) && k in s.delivery.ledger && s.delivery.ledger[k].status.Persisted?
    ensures k in D.StoredKeys(s.delivery.sink)
  {
  }

  lemma DrainedKeyIsStored(u: T.Setup, s: State, k: string)
    requires Exact(u, s) && Drained(s)
    requires k in s.tail.db.keys && RetainedTrace(s.tail.db, s.tail.db.keys[k].home)
    ensures k in D.StoredKeys(s.delivery.sink)
  {
    hide Exact;
    RetainedIsInOutbox(u, s, k);
    PublishedIsLogged(u, s, k);
    var i :| 0 <= i < |s.tail.log| && Processable(s.tail.log[i]) && s.tail.log[i].payload.envelope.eventKey == k;
    CommittedIsDone(u, s, i);
    PersistedIsStored(u, s, k);
  }

  lemma DrainedIsDecided(u: T.Setup, s: State, k: string)
    requires Exact(u, s) && Drained(s) && k in s.tail.acked
    ensures k in s.tail.db.keys
    ensures var id, e := s.tail.db.keys[k].home, s.tail.db.keys[k].origin;
            && e.eventKey == k && id in s.tail.db.decisions
            && (RetainedTrace(s.tail.db, id) <==> Retains(s.tail.db.decisions[id].reason))
  {
  }

  // The span is of a trace that was not evicted, and some span of the trace failed
  // or was slow, or the trace is one of the sampled ones.
  ghost predicate Wanted(u: T.Setup, s: State, k: string) {
    && k in s.tail.db.keys && s.tail.db.keys[k].home in s.tail.db.decisions
    && var id := s.tail.db.keys[k].home;
       !s.tail.db.decisions[id].reason.EvictedPressure?
       && !ReasonFits(id.trace, AcceptedSpans(s.tail.db, id), u.config, DroppedHealthySample)
  }

  lemma DrainedKeyIsSeen(u: T.Setup, s: State, view: map<RowKey, L.SpanRow>, k: string)
    requires TailSafety.MadeIsProcessable(u) && ReachableWithoutDeletion(u, s) && Drained(s)
    requires FinalView(s.delivery.sink, view) && k in s.tail.acked
    ensures k in s.tail.db.keys && s.tail.db.keys[k].home in s.tail.db.decisions
    ensures (s.tail.db.keys[k].origin.tenantId, k) in view <==> Wanted(u, s, k)
  {
    hide ReachableWithoutDeletion, TailSafety.MadeIsProcessable, ReasonFits;
    ReachableIsExact(u, s);
    DrainedIsDecided(u, s, k);
    hide Exact;
    var id, e := s.tail.db.keys[k].home, s.tail.db.keys[k].origin;
    DecisionsJustified(u, s, id);
    VerdictByAttributes(id.trace, AcceptedSpans(s.tail.db, id), u.config);
    if RetainedTrace(s.tail.db, id) {
      DrainedKeyIsStored(u, s, k);
      var row :| row in s.delivery.sink && row.key == k;
      StoredVerbatim(u, s, row);
    }
    if (e.tenantId, k) in view {
      StoredVerbatim(u, s, view[(e.tenantId, k)]);
    }
  }

  lemma SeenIsAcknowledged(u: T.Setup, s: State, view: map<RowKey, L.SpanRow>, p: RowKey)
    requires TailSafety.MadeIsProcessable(u) && ReachableWithoutDeletion(u, s)
    requires FinalView(s.delivery.sink, view) && p in view
    ensures p.1 in s.tail.acked && p.1 in s.tail.db.keys
    ensures p.0 == s.tail.db.keys[p.1].origin.tenantId && L.Copies(view[p], s.tail.db.keys[p.1].origin)
  {
    StoredVerbatim(u, s, view[p]);
    hide ReachableWithoutDeletion, TailSafety.MadeIsProcessable;
    ReachableIsExact(u, s);
  }

  // When the pipeline has drained, a reader sees exactly the acknowledged spans
  // of the traces that were not evicted and that the classifier retains, each
  // one verbatim and once, and nothing else.
  lemma DrainedViewIsExact(u: T.Setup, s: State, view: map<RowKey, L.SpanRow>)
    requires TailSafety.MadeIsProcessable(u) && ReachableWithoutDeletion(u, s) && Drained(s)
    requires FinalView(s.delivery.sink, view)
    ensures forall k :: k in s.tail.acked ==> k in s.tail.db.keys
    ensures forall p: RowKey :: p in view <==>
              p.1 in s.tail.acked && Wanted(u, s, p.1) && p.0 == s.tail.db.keys[p.1].origin.tenantId
    ensures forall p :: p in view ==> L.Copies(view[p], s.tail.db.keys[p.1].origin)
  {
    hide ReachableWithoutDeletion, TailSafety.MadeIsProcessable, Drained, FinalView, Wanted, L.Copies;
    forall k | k in s.tail.acked
      ensures k in s.tail.db.keys && ((s.tail.db.keys[k].origin.tenantId, k) in view <==> Wanted(u, s, k))
    {
      DrainedKeyIsSeen(u, s, view, k);
    }
    forall p | p in view
      ensures p.1 in s.tail.acked && p.1 in s.tail.db.keys
      ensures p.0 == s.tail.db.keys[p.1].origin.tenantId && L.Copies(view[p], s.tail.db.keys[p.1].origin)
    {
      SeenIsAcknowledged(u, s, view, p);
    }
  }

  // ---------- a partition that waits for a tenant ----------

  // A partition stuck at a record that the tables do not admit gets past it only
  // once its tenant is created, and is admitted as soon as that happens.
  lemma {:induction false} AdmittedExactlyWithTheTenant(u: T.Setup, s: State, actions: seq<Action>, partition: nat,
                                                        at: nat)
    requires TailSafety.MadeIsProcessable(u) && Reachable(u, s) && Run(u, s, actions)
    requires A.StuckAt(s.tail.log, s.delivery, partition, at)
    ensures var t := After(u, s, actions);
            && at < |t.tail.log| && t.tail.log[at] == s.tail.log[at]
            && (D.Admissible(t.tail.log, t.delivery, at) <==> CreatesTenantOf(actions, s.tail.log[at]))
            && (!D.Admissible(t.tail.log, t.delivery, at) ==> D.CommittedOf(t.delivery, partition) <= at)
  {
    ReachableIsSafe(u, s);
    hide Reachable, TailSafety.MadeIsProcessable;
    RunAdmits(u, s, actions, partition, at);
  }

  ghost predicate CreatesTenantOf(actions: seq<Action>, r: Record) {
    exists i :: 0 <= i < |actions| && Creates(actions[i], r)
  }

  predicate Creates(a: Action, r: Record) {
    a.Deliver? && a.deliverAction.CreateTenant? && A.TenantOf(r) == Some(a.deliverAction.tenant)
  }

  lemma CreatesFirstOrLater(actions: seq<Action>, r: Record)
    requires actions != []
    ensures CreatesTenantOf(actions, r) <==> Creates(actions[0], r) || CreatesTenantOf(actions[1..], r)
  {
    hide Creates;
    if i :| 0 <= i < |actions| && Creates(actions[i], r) {
      if i > 0 {
        assert Creates(actions[1..][i - 1], r);
      }
    }
    if i :| 0 <= i < |actions| - 1 && Creates(actions[1..][i], r) {
      assert Creates(actions[i + 1], r);
    }
  }

  lemma StepAdmission(u: T.Setup, s: State, a: Action, partition: nat, at: nat)
    requires Delivers(u, s) && Enabled(u, s, a) && A.StuckAt(s.tail.log, s.delivery, partition, at)
    ensures var t := Do(u, s, a);
            && at < |t.tail.log| && t.tail.log[at] == s.tail.log[at]
            && if Creates(a, s.tail.log[at]) then D.Admissible(t.tail.log, t.delivery, at)
               else A.StuckAt(t.tail.log, t.delivery, partition, at)
  {
    hide D.Committed, D.RowsAccounted, F.Partitioned, F.FirstOnly, A.StuckAt, T.Do, T.Enabled, D.Do, D.Enabled;
    hide A.TenantOf;
    StuckIsThere(s.tail.log, s.delivery, partition, at);
    match a
    case Tail(b) =>
      LogOnlyGrows(u, s.tail, b);
      if T.Do(u, s.tail, b).log != s.tail.log {
        var r :| T.Do(u, s.tail, b).log == s.tail.log + [r] && F.Partitioned([r], u.partitionOf);
        A.AppendStaysStuck(s.tail.log, r, s.delivery, partition, at);
      }
    case Deliver(b) =>
      A.StepAdmits(s.tail.log, s.delivery, b, partition, at, u.partitionOf);
      if !Creates(a, s.tail.log[at]) {
        A.StepStaysStuck(s.tail.log, s.delivery, b, partition, at, u.partitionOf);
      }
  }

  lemma StuckIsThere(log: seq<Record>, s: D.State, partition: nat, at: nat)
    requires A.StuckAt(log, s, partition, at)
    ensures at < |log| && !D.Admissible(log, s, at)
  {
  }

  lemma {:induction false} RunStaysAdmitted(u: T.Setup, s: State, actions: seq<Action>, at: nat)
    requires Run(u, s, actions) && at < |s.tail.log| && D.Admissible(s.tail.log, s.delivery, at)
    ensures var t := After(u, s, actions);
            at < |t.tail.log| && t.tail.log[at] == s.tail.log[at] && D.Admissible(t.tail.log, t.delivery, at)
    decreases |actions|
  {
    hide T.Do, T.Enabled, D.Do, D.Enabled;
    if actions != [] {
      var t := Do(u, s, actions[0]);
      match actions[0] {
        case Tail(b) => LogOnlyGrows(u, s.tail, b);
        case Deliver(b) => A.StepKeepsAdmission(s.tail.log, s.delivery, b, at);
      }
      RunStaysAdmitted(u, t, actions[1..], at);
    }
  }

  lemma {:induction false} RunAdmits(u: T.Setup, s: State, actions: seq<Action>, partition: nat, at: nat)
    requires Delivers(u, s) && Run(u, s, actions) && A.StuckAt(s.tail.log, s.delivery, partition, at)
    ensures var t := After(u, s, actions);
            && at < |t.tail.log| && t.tail.log[at] == s.tail.log[at]
            && (D.Admissible(t.tail.log, t.delivery, at) <==> CreatesTenantOf(actions, s.tail.log[at]))
            && (!D.Admissible(t.tail.log, t.delivery, at) ==> D.CommittedOf(t.delivery, partition) <= at)
    decreases |actions|
  {
    hide Delivers, Do, Enabled, A.StuckAt, D.Admissible, Creates, CreatesTenantOf;
    StuckIsThere(s.tail.log, s.delivery, partition, at);
    if actions == [] {
      NothingCreated(s.tail.log[at]);
      DeliversCommitted(u, s);
      A.StuckIsUncommitted(s.tail.log, s.delivery, partition, at);
    } else {
      CreatesFirstOrLater(actions, s.tail.log[at]);
      StepAdmission(u, s, actions[0], partition, at);
      StepDelivers(u, s, actions[0]);
      if Creates(actions[0], s.tail.log[at]) {
        RunStaysAdmitted(u, Do(u, s, actions[0]), actions[1..], at);
      } else {
        RunAdmits(u, Do(u, s, actions[0]), actions[1..], partition, at);
      }
    }
  }

  lemma DeliversCommitted(u: T.Setup, s: State)
    requires Delivers(u, s)
    ensures D.Committed(s.tail.log, s.delivery)
  {
  }

  lemma NothingCreated(r: Record)
    ensures !CreatesTenantOf([], r)
  {
  }
}
