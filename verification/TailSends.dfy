// How often a message is sent, in every run: the copies of a key in the broker and
// the workers about to send it never outnumber the times a worker took it from
// the outbox, whether or not its row was deleted and written anew.
module TailSends {
  import opened Telemetry
  import opened TailTables
  import opened TailInvariants
  import opened TailMachine
  import opened Broker
  import opened TailEffects
  import opened TailSafety

  function CarriesKey(r: Record, k: string): nat {
    if Processable(r) && r.payload.envelope.eventKey == k then 1 else 0
  }

  function Copies(log: seq<Record>, k: string): nat {
    if log == [] then 0 else Copies(log[..|log| - 1], k) + CarriesKey(log[|log| - 1], k)
  }

  lemma CopiesGrow(log: seq<Record>, r: Record, k: string)
    ensures Copies(log + [r], k) == Copies(log, k) + CarriesKey(r, k)
  {
    assert (log + [r])[..|log|] == log;
  }

  // Messages a worker may still send.
  function Unsent(t: Tailer): seq<Message> {
    if t.Publishing? then t.queue
    else if t.Acknowledged? && t.queue != [] then t.queue[1..]
    else []
  }

  predicate Carries(queue: seq<Message>, k: string) {
    exists i :: 0 <= i < |queue| && queue[i].key == k
  }

  ghost function InFlight(s: State, k: string): set<nat> {
    set w | w in s.tailers && Carries(Unsent(s.tailers[w]), k)
  }

  ghost function Sendings(s: State, k: string): nat {
    Copies(s.log, k) + |InFlight(s, k)|
  }

  // Whether the step takes the key from the outbox.
  function TakenBy(a: Action, k: string): nat {
    if a.TakeMessages? && k in a.picked then 1 else 0
  }

  // ---------- queues ----------

  ghost predicate DistinctQueue(queue: seq<Message>) {
    forall i, j :: 0 <= i < j < |queue| ==> queue[i].key != queue[j].key
  }

  ghost predicate QueuesDistinct(s: State) {
    forall w :: w in s.tailers ==> DistinctQueue(QueueOf(s.tailers[w]))
  }

  // A worker that keeps or shortens its queue and takes on no new message.
  ghost predicate TakesNothing(x: Tailer, y: Tailer) {
    && (QueueOf(y) == [] || QueueOf(y) == QueueOf(x) || (QueueOf(x) != [] && QueueOf(y) == QueueOf(x)[1..]))
    && forall k :: Carries(Unsent(y), k) ==> Carries(Unsent(x), k)
  }

  ghost predicate NothingTaken(s: State, t: State) {
    forall w :: w in t.tailers ==> TakesNothing(TailerOf(s, w), t.tailers[w])
  }

  lemma RestIsDistinct(queue: seq<Message>)
    requires DistinctQueue(queue) && queue != []
    ensures DistinctQueue(queue[1..])
  {
    forall i, j | 0 <= i < j < |queue[1..]| ensures queue[1..][i].key != queue[1..][j].key {
      assert queue[1..][i] == queue[i + 1] && queue[1..][j] == queue[j + 1];
    }
  }

  lemma ShorterStaysDistinct(x: Tailer, y: Tailer)
    requires DistinctQueue(QueueOf(x)) && TakesNothing(x, y)
    ensures DistinctQueue(QueueOf(y))
  {
    assert DistinctQueue([]);
    hide Carries, Unsent, QueueOf;
    if QueueOf(x) != [] {
      RestIsDistinct(QueueOf(x));
    }
    hide DistinctQueue;
  }

  lemma NothingTakenKeepsDistinct(s: State, t: State)
    requires QueuesDistinct(s) && NothingTaken(s, t)
    ensures QueuesDistinct(t)
  {
    hide TakesNothing;
    forall w | w in t.tailers ensures DistinctQueue(QueueOf(t.tailers[w])) {
      ShorterStaysDistinct(TailerOf(s, w), t.tailers[w]) by {
        assert w in s.tailers ==> DistinctQueue(QueueOf(s.tailers[w]));
      }
    }
  }

  lemma StepTakesNothing(u: Setup, s: State, a: Action)
    requires Enabled(u, s, a) && !a.TakeMessages? && QueuesDistinct(s)
    ensures NothingTaken(s, Do(u, s, a))
  {
    hide LegitClaim, LegitOutboxClaim, LoadedAs, Grouping, LegitVictims, StageBatch, DeleteBefore, DeleteTenant;
    hide ClaimOutbox, ClaimTraces, RecordDecision, RuledOut, MarkPublished;
    if a.Publish? {
      HeadLeaves(s, a.w);
    }
  }

  lemma HeadLeaves(s: State, w: nat)
    requires QueuesDistinct(s) && w in s.tailers && s.tailers[w].Publishing? && s.tailers[w].queue != []
    ensures var queue := s.tailers[w].queue;
            && Carries(Unsent(s.tailers[w]), queue[0].key)
            && !Carries(Unsent(Acknowledged(queue)), queue[0].key)
            && TakesNothing(s.tailers[w], Acknowledged(queue))
  {
    var x := s.tailers[w];
    assert QueueOf(x) == x.queue;
    forall i | 0 <= i < |x.queue[1..]| ensures x.queue[1..][i].key != x.queue[0].key {
      assert x.queue[1..][i] == QueueOf(x)[i + 1];
    }
  }

  // ---------- counting ----------

  lemma InFlightShrinks(s: State, t: State, k: string)
    requires NothingTaken(s, t)
    ensures |InFlight(t, k)| <= |InFlight(s, k)|
  {
    SubsetIsNoLarger(InFlight(t, k), InFlight(s, k));
  }

  lemma AddOneInFlight(s: State, t: State, w: nat, k: string)
    requires forall v :: v in t.tailers && v != w ==> v in s.tailers && t.tailers[v] == s.tailers[v]
    ensures |InFlight(t, k)| <= |InFlight(s, k)| + 1
    ensures w !in InFlight(t, k) ==> |InFlight(t, k)| <= |InFlight(s, k)|
    ensures w in InFlight(s, k) && w !in InFlight(t, k) ==> |InFlight(t, k)| <= |InFlight(s, k)| - 1
  {
    SubsetIsNoLarger(InFlight(t, k) - {w}, InFlight(s, k) - {w});
    SubsetIsNoLarger(InFlight(s, k) - {w}, InFlight(s, k));
  }

  // Sending a message turns one message in flight into one copy.
  lemma PublishCounts(u: Setup, s: State, a: Action, k: string)
    requires a.Publish? && Enabled(u, s, a) && QueuesDistinct(s) && QueuesMade(s, u.made)
    ensures Sendings(Do(u, s, a), k) <= Sendings(s, k)
  {
    var t := Do(u, s, a);
    var x := s.tailers[a.w];
    var r := Sent(u.partitionOf, x.queue[0].envelope);
    HeadLeaves(s, a.w);
    assert GoodMessage(QueueOf(x)[0], u.made);
    CopiesGrow(s.log, r, k);
    AddOneInFlight(s, t, a.w, k);
    StepTakesNothing(u, s, a);
    InFlightShrinks(s, t, k);
    hide Copies, QueuesDistinct, NothingTaken, TakesNothing;
  }

  lemma TakingCounts(s: State, t: State, w: nat, db: Tables, picked: seq<string>, k: string)
    requires forall x :: x in picked ==> x in s.db.outbox
    requires TurnOf(s, t, w, db, Publishing(MessagesFor(s.db, picked)))
    ensures Sendings(t, k) <= Sendings(s, k) + if k in picked then 1 else 0
  {
    assert k !in picked ==> !Carries(MessagesFor(s.db, picked), k);
    AddOneInFlight(s, t, w, k);
    hide MessagesFor, Copies;
  }

  lemma TakingKeepsDistinct(s: State, t: State, w: nat, db: Tables, picked: seq<string>)
    requires QueuesDistinct(s) && forall x :: x in picked ==> x in s.db.outbox
    requires forall i, j :: 0 <= i < j < |picked| ==> picked[i] != picked[j]
    requires TurnOf(s, t, w, db, Publishing(MessagesFor(s.db, picked)))
    ensures QueuesDistinct(t)
  {
    assert DistinctQueue(MessagesFor(s.db, picked));
    hide DistinctQueue, MessagesFor;
  }

  lemma TakeCounts(u: Setup, s: State, a: Action, k: string)
    requires a.TakeMessages? && Enabled(u, s, a) && QueuesDistinct(s)
    ensures QueuesDistinct(Do(u, s, a))
    ensures Sendings(Do(u, s, a), k) <= Sendings(s, k) + TakenBy(a, k)
  {
    hide Enabled, Do, QueuesDistinct, Sendings, ClaimOutbox, TurnOf;
    TakeMessagesEffect(u, s, a);
    var t, db := Do(u, s, a), ClaimOutbox(s.db, a.picked, u.owner(a.w), a.now + a.ttl);
    TakingCounts(s, t, a.w, db, a.picked, k);
    TakingKeepsDistinct(s, t, a.w, db, a.picked);
  }

  lemma OtherLogs(u: Setup, s: State, a: Action, k: string)
    requires Enabled(u, s, a) && !a.Publish?
    ensures Copies(Do(u, s, a).log, k) == Copies(s.log, k)
  {
    if a.Foreign? {
      CopiesGrow(s.log, a.record, k);
    }
  }

  // Each step adds at most the sending it takes on.
  lemma StepCounts(u: Setup, s: State, a: Action, k: string)
    requires Enabled(u, s, a) && QueuesDistinct(s) && QueuesMade(s, u.made)
    ensures QueuesDistinct(Do(u, s, a))
    ensures Sendings(Do(u, s, a), k) <= Sendings(s, k) + TakenBy(a, k)
  {
    hide Enabled, Do, QueuesDistinct, NothingTaken, Copies, QueuesMade;
    if a.TakeMessages? {
      TakeCounts(u, s, a, k);
    } else {
      StepTakesNothing(u, s, a);
      NothingTakenKeepsDistinct(s, Do(u, s, a));
      if a.Publish? {
        PublishCounts(u, s, a, k);
      } else {
        OtherLogs(u, s, a, k);
        InFlightShrinks(s, Do(u, s, a), k);
      }
    }
  }

  // ---------- the attempts column ----------

  function AttemptsOf(s: Tables, k: string): nat {
    if k in s.outbox then s.outbox[k].attempts else 0
  }

  // Without deletion the outbox counts each taking.
  lemma StepAttempts(u: Setup, s: State, a: Action, k: string)
    requires Enabled(u, s, a) && !Deletes(a) && Sound(s.db, u.shard)
    ensures AttemptsOf(Do(u, s, a).db, k) == AttemptsOf(s.db, k) + TakenBy(a, k)
  {
    if a.Stage? {
      StageAttempts(u, s, a);
    } else if a.TakeMessages? {
      TakeAttempts(u, s, a, k);
    } else {
      OtherAttempts(u, s, a, k);
    }
  }

  lemma StageAttempts(u: Setup, s: State, a: Action)
    requires a.Stage? && Enabled(u, s, a) && Sound(s.db, u.shard)
    ensures Do(u, s, a).db.outbox == s.db.outbox
  {
    hide StageBatch, Sound, Grouping, LegitVictims, RuledOut;
    if StageBatch(s.db, u.shard, a.now, a.batch, a.groups, a.victims).Accepted? {
      StageBatchEffect(s.db, u.shard, u.config, a.now, a.locks, a.batch, a.groups, a.victims);
    }
  }

  lemma TakeAttempts(u: Setup, s: State, a: Action, k: string)
    requires a.TakeMessages? && Enabled(u, s, a)
    ensures AttemptsOf(Do(u, s, a).db, k) == AttemptsOf(s.db, k) + TakenBy(a, k)
  {
    hide Enabled, Do;
    TakeMessagesEffect(u, s, a);
  }

  lemma OtherAttempts(u: Setup, s: State, a: Action, k: string)
    requires Enabled(u, s, a) && !a.Stage? && !a.TakeMessages? && !Deletes(a)
    ensures AttemptsOf(Do(u, s, a).db, k) == AttemptsOf(s.db, k)
  {
    hide LegitClaim, LegitOutboxClaim, LoadedAs, Grouping, LegitVictims, StageBatch, DeleteBefore, DeleteTenant;
    hide ClaimOutbox, RuledOut, VerdictOf, WithoutBuffersOf;
  }
}
