// Runs without deletion, whatever owner names the workers use: decisions rest on
// exactly the spans the trace accepted, and copies in the broker are verbatim.
module TailExact {
  import opened Telemetry
  import opened Sampling
  import opened TailTables
  import opened TailInvariants
  import opened TailMachine
  import opened Broker
  import opened TailEffects
  import opened TailSafety
  import opened TailSends

  function TodoOf(t: Tailer): seq<TraceLease> {
    if t.Deciding? || t.Loaded? then t.todo else []
  }

  // ---------- freshness ----------

  ghost predicate LeasesNotAhead(s: Tables, todo: seq<TraceLease>) {
    forall lease :: lease in todo ==> lease.id in s.traces && lease.generation <= s.traces[lease.id].generation
  }

  // If the generation has not moved, the loaded rows are still the trace's rows.
  ghost predicate LoadFresh(s: Tables, t: Tailer) {
    t.Loaded? && t.todo != [] && Active(s, t.todo[0].id) && s.traces[t.todo[0].id].generation == t.todo[0].generation
    ==> LoadedAs(s, t.todo[0].id, t.order, t.spans)
  }

  ghost predicate FreshWork(s: State) {
    forall w :: w in s.tailers ==> LeasesNotAhead(s.db, TodoOf(s.tailers[w])) && LoadFresh(s.db, s.tailers[w])
  }

  lemma LoadTransfers(s: Tables, t: Tables, id: TraceKey, order: seq<string>, spans: seq<Envelope>)
    requires SameBuffer(s, t, id) && LoadedAs(s, id, order, spans)
    ensures LoadedAs(t, id, order, spans)
  {
    forall i | 0 <= i < |order| ensures order[i] in BufferedIn(s, id) && t.buffers[order[i]] == s.buffers[order[i]] {}
    forall k | k in BufferedIn(t, id) ensures ReceivedAt(t)(k) == ReceivedAt(s)(k) {}
  }

  lemma FencedKeepsFresh(s: Tables, t: Tables, x: Tailer)
    requires s.traces.Keys <= t.traces.Keys && Fenced(s, t)
    requires LeasesNotAhead(s, TodoOf(x)) && LoadFresh(s, x)
    ensures LeasesNotAhead(t, TodoOf(x)) && LoadFresh(t, x)
  {
    if x.Loaded? && x.todo != [] && Active(t, x.todo[0].id)
       && t.traces[x.todo[0].id].generation == x.todo[0].generation
    {
      var id := x.todo[0].id;
      assert x.todo[0] in TodoOf(x);
      LoadTransfers(s, t, id, x.order, x.spans);
    }
  }

  // A fresh load holds every span the trace ever accepted.
  lemma LoadHoldsAllAccepted(s: Tables, id: TraceKey, order: seq<string>, spans: seq<Envelope>)
    requires EachKeyInOnePlace(s) && Verbatim(s) && Active(s, id) && LoadedAs(s, id, order, spans)
    ensures Elements(spans) == AcceptedSpans(s, id)
  {
    BufferedIsRegistered(s, id);
    forall span | span in AcceptedSpans(s, id) ensures span in spans {
      var k :| k in s.keys && s.keys[k].home == id && s.keys[k].origin == span;
      assert k in BufferedIn(s, id);
      AllTaken(BufferedIn(s, id), ReceivedAt(s), order);
      var i :| 0 <= i < |order| && order[i] == k;
      assert spans[i] == span;
    }
    forall span | span in spans ensures span in AcceptedSpans(s, id) {
      var i :| 0 <= i < |spans| && spans[i] == span;
      assert order[i] in BufferedIn(s, id);
      assert order[i] in RegisteredTo(s, id);
    }
  }

  // ---------- copies in the broker ----------

  ghost predicate FromOutbox(s: Tables, e: Envelope, k: string) {
    e.eventKey == k && k in s.outbox && s.outbox[k].envelope == e
  }

  // Every message on its way and every delivered record is the outbox row's.
  ghost predicate SentVerbatim(s: State) {
    && (forall w, i :: w in s.tailers && 0 <= i < |QueueOf(s.tailers[w])| ==>
          FromOutbox(s.db, QueueOf(s.tailers[w])[i].envelope, QueueOf(s.tailers[w])[i].key))
    && (forall i :: 0 <= i < |s.log| && Processable(s.log[i]) ==>
          FromOutbox(s.db, s.log[i].payload.envelope, s.log[i].payload.envelope.eventKey))
  }

  // ---------- freshness is kept ----------

  lemma WorkersStayFresh(s: State, t: State, w: nat, x: Tailer)
    requires FreshWork(s) && t.tailers == s.tailers[w := x]
    requires s.db.traces.Keys <= t.db.traces.Keys && Fenced(s.db, t.db)
    requires LeasesNotAhead(t.db, TodoOf(x)) && LoadFresh(t.db, x)
    ensures FreshWork(t)
  {
    forall v | v in t.tailers ensures LeasesNotAhead(t.db, TodoOf(t.tailers[v])) && LoadFresh(t.db, t.tailers[v]) {
      if v != w {
        FencedKeepsFresh(s.db, t.db, s.tailers[v]);
      }
    }
  }

  lemma SameTracesAreFenced(s: Tables, t: Tables)
    requires t.buffers == s.buffers && t.traces.Keys == s.traces.Keys
    requires forall id :: id in s.traces ==>
               t.traces[id].generation == s.traces[id].generation && t.traces[id].status == s.traces[id].status
    ensures Fenced(s, t)
  {
  }

  lemma CloseIsFenced(s: Tables, id: TraceKey, reason: Reason, now: int)
    requires Active(s, id)
    ensures Fenced(s, Close(s, id, reason, now))
  {
    var t := Close(s, id, reason, now);
    forall other | other in t.traces && Active(t, other) ensures SameBuffer(s, t, other) {}
  }

  lemma StageFresh(u: Setup, s: State, a: Action)
    requires a.Stage? && Enabled(u, s, a) && Sound(s.db, u.shard) && FreshWork(s)
    ensures FreshWork(Do(u, s, a))
  {
    var r := StageBatch(s.db, u.shard, a.now, a.batch, a.groups, a.victims);
    if r.Accepted? {
      StageBatchEffect(s.db, u.shard, u.config, a.now, a.locks, a.batch, a.groups, a.victims);
      var t := Do(u, s, a);
      forall v | v in t.tailers ensures LeasesNotAhead(t.db, TodoOf(t.tailers[v])) && LoadFresh(t.db, t.tailers[v]) {
        FencedKeepsFresh(s.db, t.db, s.tailers[v]);
      }
    }
  }

  lemma ConcludeFresh(u: Setup, s: State, a: Action)
    requires a.Conclude? && Enabled(u, s, a) && DecisionsAgree(s.db) && FreshWork(s)
    ensures FreshWork(Do(u, s, a))
  {
    var x := TailerOf(s, a.w);
    var lease, d := x.todo[0], VerdictOf(u, x);
    DecideIsVerdictOfTheSet(lease.id.trace, x.spans, u.config);
    RecordCloses(s.db, u.owner(a.w), lease, d.reason, a.now);
    var t := Do(u, s, a);
    if StillLeased(s.db, u.owner(a.w), lease) {
      CloseIsFenced(s.db, lease.id, d.reason, a.now);
    } else {
      SameTracesAreFenced(s.db, s.db);
    }
    FencedKeepsFresh(s.db, t.db, x);
    assert forall l :: l in x.todo[1..] ==> l in TodoOf(x);
    WorkersStayFresh(s, t, a.w, Deciding(x.todo[1..]));
  }

  lemma ClaimFresh(s: State, t: State, w: nat, ids: seq<TraceKey>, owner: string, until: int)
    requires FreshWork(s) && forall id :: id in ids ==> id in s.db.traces
    requires TurnOf(s, t, w, ClaimTraces(s.db, ids, owner, until), Deciding(LeasesFor(s.db, ids)))
    ensures FreshWork(t)
  {
    hide FreshWork, Fenced, LeasesNotAhead, LoadFresh, ClaimTraces, LeasesFor;
    ClaimsAreFenced(s.db, ids, owner, until);
    ClaimedAreNotAhead(s.db, ids, owner, until);
    WorkersStayFresh(s, t, w, Deciding(LeasesFor(s.db, ids)));
  }

  lemma ClaimLeasesFresh(u: Setup, s: State, a: Action)
    requires a.ClaimLeases? && Enabled(u, s, a) && FreshWork(s)
    ensures FreshWork(Do(u, s, a))
  {
    hide *;
    ClaimLeasesEffect(u, s, a);
    ClaimFresh(s, Do(u, s, a), a.w, a.ids, u.owner(a.w), a.now + a.ttl);
  }

  lemma ClaimsAreFenced(s: Tables, ids: seq<TraceKey>, owner: string, until: int)
    ensures s.traces.Keys == ClaimTraces(s, ids, owner, until).traces.Keys
    ensures Fenced(s, ClaimTraces(s, ids, owner, until))
  {
    SameTracesAreFenced(s, ClaimTraces(s, ids, owner, until));
  }

  lemma ClaimedAreNotAhead(s: Tables, ids: seq<TraceKey>, owner: string, until: int)
    requires forall id :: id in ids ==> id in s.traces
    ensures LeasesNotAhead(ClaimTraces(s, ids, owner, until), TodoOf(Deciding(LeasesFor(s, ids))))
    ensures LoadFresh(ClaimTraces(s, ids, owner, until), Deciding(LeasesFor(s, ids)))
  {
  }

  lemma OtherStepsFresh(u: Setup, s: State, a: Action)
    requires !a.Stage? && !a.ClaimLeases? && !a.Conclude? && !Deletes(a) && Enabled(u, s, a) && FreshWork(s)
    ensures FreshWork(Do(u, s, a))
  {
    hide LegitOutboxClaim, Grouping, LegitVictims, StageBatch, DeleteBefore, DeleteTenant, RecordDecision;
    var t := Do(u, s, a);
    SameTracesAreFenced(s.db, t.db);
    if a.Load? {
      assert TodoOf(s.tailers[a.w]) == TailerOf(s, a.w).todo;
    }
    if !a.Foreign? {
      WorkersStayFresh(s, t, a.w, t.tailers[a.w]);
    }
  }

  // ---------- copies stay verbatim ----------

  ghost predicate OutboxExtended(s: Tables, t: Tables) {
    forall k :: k in s.outbox ==>
      k in t.outbox && t.outbox[k].envelope == s.outbox[k].envelope
  }

  ghost predicate Quiet(s: State, t: State) {
    && OutboxExtended(s.db, t.db)
    && (forall w :: w in t.tailers ==> TakesNothing(TailerOf(s, w), t.tailers[w]))
  }

  lemma QuietKeepsQueuesVerbatim(s: State, t: State)
    requires SentVerbatim(s) && Quiet(s, t)
    ensures forall w, i :: w in t.tailers && 0 <= i < |QueueOf(t.tailers[w])| ==>
              FromOutbox(t.db, QueueOf(t.tailers[w])[i].envelope, QueueOf(t.tailers[w])[i].key)
  {
    forall w, i | w in t.tailers && 0 <= i < |QueueOf(t.tailers[w])|
      ensures FromOutbox(t.db, QueueOf(t.tailers[w])[i].envelope, QueueOf(t.tailers[w])[i].key)
    {
      var x, y := TailerOf(s, w), t.tailers[w];
      var shift := if QueueOf(y) == QueueOf(x) then 0 else 1;
      assert QueueOf(y)[i] == QueueOf(x)[i + shift];
      assert FromOutbox(s.db, QueueOf(x)[i + shift].envelope, QueueOf(x)[i + shift].key);
    }
  }

  lemma QuietKeepsVerbatim(s: State, t: State)
    requires SentVerbatim(s) && Quiet(s, t) && t.log == s.log
    ensures SentVerbatim(t)
  {
    QuietKeepsQueuesVerbatim(s, t);
  }

  lemma StageSending(u: Setup, s: State, a: Action)
    requires a.Stage? && Enabled(u, s, a) && Sound(s.db, u.shard) && SentVerbatim(s)
    ensures SentVerbatim(Do(u, s, a))
  {
    var r := StageBatch(s.db, u.shard, a.now, a.batch, a.groups, a.victims);
    if r.Accepted? {
      StageBatchEffect(s.db, u.shard, u.config, a.now, a.locks, a.batch, a.groups, a.victims);
      QuietKeepsVerbatim(s, Do(u, s, a));
    }
  }

  lemma ConcludeSending(u: Setup, s: State, a: Action)
    requires a.Conclude? && Enabled(u, s, a) && DecisionsAgree(s.db) && SentVerbatim(s)
    ensures SentVerbatim(Do(u, s, a))
  {
    hide LegitClaim, LegitOutboxClaim, LoadedAs, Grouping, LegitVictims, StageBatch, DeleteBefore, DeleteTenant;
    hide ClaimOutbox, ClaimTraces, SentVerbatim;
    var x := TailerOf(s, a.w);
    var lease, d := x.todo[0], VerdictOf(u, x);
    DecideIsVerdictOfTheSet(lease.id.trace, x.spans, u.config);
    RecordCloses(s.db, u.owner(a.w), lease, d.reason, a.now);
    QuietKeepsVerbatim(s, Do(u, s, a));
  }

  lemma QuietStepsSending(u: Setup, s: State, a: Action)
    requires (a.ClaimLeases? || a.Load? || a.Stop? || a.Mark?) && Enabled(u, s, a) && SentVerbatim(s)
    ensures SentVerbatim(Do(u, s, a))
  {
    hide LegitClaim, LegitOutboxClaim, LoadedAs, Grouping, LegitVictims, StageBatch, DeleteBefore, DeleteTenant;
    hide ClaimOutbox, RecordDecision, SentVerbatim;
    QuietKeepsVerbatim(s, Do(u, s, a));
  }

  lemma ForeignSending(u: Setup, s: State, a: Action)
    requires a.Foreign? && Enabled(u, s, a) && SentVerbatim(s)
    ensures SentVerbatim(Do(u, s, a))
  {
  }

  ghost predicate Taken(s: State, t: State, w: nat, owner: string, picked: seq<string>, until: int)
    requires forall k :: k in picked ==> k in s.db.outbox
  {
    TurnOf(s, t, w, ClaimOutbox(s.db, picked, owner, until), Publishing(MessagesFor(s.db, picked)))
  }

  lemma TakingVerbatim(s: State, t: State, w: nat, owner: string, picked: seq<string>, until: int)
    requires SentVerbatim(s)
    requires forall k :: k in picked ==> k in s.db.outbox && s.db.outbox[k].envelope.eventKey == k
    requires Taken(s, t, w, owner, picked, until)
    ensures SentVerbatim(t)
  {
    var queue := MessagesFor(s.db, picked);
    forall i | 0 <= i < |queue| ensures FromOutbox(t.db, queue[i].envelope, queue[i].key) {
      assert picked[i] in picked;
    }
    forall e, k | FromOutbox(s.db, e, k) ensures FromOutbox(t.db, e, k) {}
    hide FromOutbox, MessagesFor, ClaimOutbox;
  }

  lemma TakingSending(s: State, t: State, w: nat, owner: string, picked: seq<string>, until: int)
    requires SentVerbatim(s) && KeysAndOutboxKeyed(s.db)
    requires forall k :: k in picked ==> k in s.db.outbox
    requires Taken(s, t, w, owner, picked, until)
    ensures SentVerbatim(t)
  {
    TakingVerbatim(s, t, w, owner, picked, until);
  }

  lemma TakeMessagesSending(u: Setup, s: State, a: Action)
    requires a.TakeMessages? && Enabled(u, s, a) && SentVerbatim(s) && KeysAndOutboxKeyed(s.db)
    ensures SentVerbatim(Do(u, s, a))
  {
    hide *;
    TakeMessagesEffect(u, s, a);
    var t := Do(u, s, a);
    TakingSending(s, t, a.w, u.owner(a.w), a.picked, a.now + a.ttl);
  }

  lemma PublishVerbatim(s: State, t: State, r: Record)
    requires SentVerbatim(s) && Quiet(s, t) && t.db == s.db && t.log == s.log + [r]
    requires Processable(r) ==> FromOutbox(s.db, r.payload.envelope, r.payload.envelope.eventKey)
    ensures SentVerbatim(t)
  {
    QuietKeepsQueuesVerbatim(s, t);
  }

  lemma PublishSending(u: Setup, s: State, a: Action)
    requires a.Publish? && Enabled(u, s, a) && SentVerbatim(s)
    ensures SentVerbatim(Do(u, s, a))
  {
    var t := Do(u, s, a);
    var queue := s.tailers[a.w].queue;
    var r := Sent(u.partitionOf, queue[0].envelope);
    assert FromOutbox(s.db, QueueOf(s.tailers[a.w])[0].envelope, QueueOf(s.tailers[a.w])[0].key);
    PublishVerbatim(s, t, r);
  }

  // ---------- the tables ----------

  ghost predicate TablesExact(u: Setup, s: Tables) {
    Sound(s, u.shard) && Complete(s) && Justified(s, u.config)
  }

  // Whenever a decision is applied, its verdict is the classifier's on all the
  // spans the trace accepted, and the rows it moves or deletes are those loaded.
  lemma DecisionIsFresh(u: Setup, s: State, w: nat)
    requires EachKeyInOnePlace(s.db) && Verbatim(s.db) && FreshWork(s)
    requires TailerOf(s, w).Loaded? && TailerOf(s, w).todo != []
    requires StillLeased(s.db, u.owner(w), TailerOf(s, w).todo[0])
    ensures var x := TailerOf(s, w);
            var id, d := x.todo[0].id, VerdictOf(u, x);
            && LoadedAs(s.db, id, x.order, x.spans)
            && Elements(x.spans) == AcceptedSpans(s.db, id)
            && d.reason == Verdict(id.trace, AcceptedSpans(s.db, id), u.config)
            && d.retained == Retains(d.reason)
  {
    var x := TailerOf(s, w);
    LoadHoldsAllAccepted(s.db, x.todo[0].id, x.order, x.spans);
    DecideIsVerdictOfTheSet(x.todo[0].id.trace, x.spans, u.config);
  }

  lemma ConcludeTables(u: Setup, s: State, a: Action)
    requires a.Conclude? && Enabled(u, s, a) && TablesExact(u, s.db) && FreshWork(s)
    ensures TablesExact(u, Do(u, s, a).db)
  {
    var x := TailerOf(s, a.w);
    var lease, d := x.todo[0], VerdictOf(u, x);
    DecideIsVerdictOfTheSet(lease.id.trace, x.spans, u.config);
    RecordCloses(s.db, u.owner(a.w), lease, d.reason, a.now);
    if StillLeased(s.db, u.owner(a.w), lease) {
      DecisionIsFresh(u, s, a.w);
      CloseKeepsSound(s.db, u.shard, lease.id, d.reason, a.now);
      CloseKeepsComplete(s.db, lease.id, d.reason, a.now);
      CloseKeepsJustified(s.db, u.config, lease.id, d.reason, a.now);
    }
  }

  lemma OutboxStateKeepsExact(u: Setup, s: Tables, t: Tables)
    requires TablesExact(u, s) && OnlyOutboxState(s, t)
    ensures TablesExact(u, t)
  {
    hide Sound, Complete, Justified, OnlyOutboxState;
    OutboxStateKeepsSound(s, t, u.shard);
    OutboxStateKeepsComplete(s, t);
    OutboxStateKeepsJustified(s, t, u.config);
  }

  lemma StageTables(u: Setup, s: State, a: Action)
    requires a.Stage? && Enabled(u, s, a) && TablesExact(u, s.db)
    ensures TablesExact(u, Do(u, s, a).db)
  {
    hide Sound, Complete, Justified, Grouping, LegitVictims, StageBatch;
    if StageBatch(s.db, u.shard, a.now, a.batch, a.groups, a.victims).Accepted? {
      StageBatchKeeps(s.db, u.shard, u.config, a.now, a.locks, a.batch, a.groups, a.victims);
    }
  }

  lemma LeaseTables(u: Setup, s: State, a: Action)
    requires (a.ClaimLeases? || a.TakeMessages? || a.Mark?) && Enabled(u, s, a) && TablesExact(u, s.db)
    ensures TablesExact(u, Do(u, s, a).db)
  {
    hide Sound, Complete, Justified, OnlyOutboxState, ClaimTraces, ClaimOutbox, MarkPublished;
    SoundLeases(s.db, u.shard);
    if a.ClaimLeases? {
      LegitClaimIsActive(s.db, a.now, a.quiet, a.limit, a.lockedTraces, a.ids);
      ClaimTracesKeepsSound(s.db, u.shard, a.ids, u.owner(a.w), a.now + a.ttl);
      ClaimTracesKeepsComplete(s.db, a.ids, u.owner(a.w), a.now + a.ttl);
      ClaimTracesKeepsJustified(s.db, u.config, a.ids, u.owner(a.w), a.now + a.ttl);
    } else if a.TakeMessages? {
      LegitOutboxClaimIsUnpublished(s.db, a.now, a.limit, a.lockedKeys, a.picked);
      ClaimOutboxIsOutboxState(s.db, u.shard, a.picked, u.owner(a.w), a.now + a.ttl);
      OutboxStateKeepsExact(u, s.db, Do(u, s, a).db);
    } else {
      var key := TailerOf(s, a.w).queue[0].key;
      if OutboxHeld(s.db, u.owner(a.w), key) {
        MarkIsOutboxState(s.db, key, a.now);
        OutboxStateKeepsExact(u, s.db, Do(u, s, a).db);
      }
    }
  }

  lemma StepTables(u: Setup, s: State, a: Action)
    requires !Deletes(a) && Enabled(u, s, a) && TablesExact(u, s.db) && FreshWork(s)
    ensures TablesExact(u, Do(u, s, a).db)
  {
    hide TablesExact, FreshWork;
    match a
    case Stage(_, _, _, _, _) => StageTables(u, s, a);
    case Conclude(_, _) => ConcludeTables(u, s, a);
    case ClaimLeases(_, _, _, _, _, _, _) => LeaseTables(u, s, a);
    case TakeMessages(_, _, _, _, _, _) => LeaseTables(u, s, a);
    case Mark(_, _) => LeaseTables(u, s, a);
    case _ =>
  }

  ghost predicate Exact(u: Setup, s: State) {
    TablesExact(u, s.db) && FreshWork(s) && SentVerbatim(s)
  }

  lemma SoundKeyed(s: Tables, shard: Sharding)
    requires Sound(s, shard)
    ensures KeysAndOutboxKeyed(s)
  {
  }

  lemma StepFresh(u: Setup, s: State, a: Action)
    requires !Deletes(a) && Enabled(u, s, a) && Sound(s.db, u.shard) && FreshWork(s)
    ensures FreshWork(Do(u, s, a))
  {
    hide Sound, FreshWork;
    SoundLeases(s.db, u.shard);
    if a.Stage? {
      StageFresh(u, s, a);
    } else if a.Conclude? {
      ConcludeFresh(u, s, a);
    } else if a.ClaimLeases? {
      ClaimLeasesFresh(u, s, a);
    } else {
      OtherStepsFresh(u, s, a);
    }
  }

  lemma StepSending(u: Setup, s: State, a: Action)
    requires !Deletes(a) && Enabled(u, s, a) && Sound(s.db, u.shard) && SentVerbatim(s)
    ensures SentVerbatim(Do(u, s, a))
  {
    hide Sound, SentVerbatim;
    SoundLeases(s.db, u.shard);
    SoundKeyed(s.db, u.shard);
    match a
    case Stage(_, _, _, _, _) => StageSending(u, s, a);
    case Conclude(_, _) => ConcludeSending(u, s, a);
    case TakeMessages(_, _, _, _, _, _) => TakeMessagesSending(u, s, a);
    case Publish(_, _) => PublishSending(u, s, a);
    case Foreign(_) => ForeignSending(u, s, a);
    case _ => QuietStepsSending(u, s, a);
  }

  lemma StepExact(u: Setup, s: State, a: Action)
    requires !Deletes(a) && Enabled(u, s, a) && Exact(u, s)
    ensures Exact(u, Do(u, s, a))
  {
    hide Sound, Complete, Justified, FreshWork, SentVerbatim;
    StepFresh(u, s, a);
    StepSending(u, s, a);
    StepTables(u, s, a);
  }

  lemma {:induction false} RunExact(u: Setup, s: State, actions: seq<Action>)
    requires Exact(u, s) && Run(u, s, actions) && DeletionFree(actions)
    ensures Exact(u, After(u, s, actions))
    decreases |actions|
  {
    hide Exact;
    if actions != [] {
      StepExact(u, s, actions[0]);
      RunExact(u, Do(u, s, actions[0]), actions[1..]);
    }
  }

  lemma InitiallyExact(u: Setup)
    ensures Exact(u, INITIAL)
  {
    InitiallySafe(u);
  }
}
