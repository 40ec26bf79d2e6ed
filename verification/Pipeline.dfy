// Gateways, tail workers, broker, persistence workers, ledger and store together:
// the claims the platform makes about whole runs.
module Pipeline {
  import opened TailTables
  import opened TailInvariants
  import opened Broker
  import T = TailMachine
  import TailSafety
  import TailExact
  import D = Delivery
  import F = FirstDelivery

  datatype State = State(tail: T.State, delivery: D.State)
  datatype Action = Tail(tailAction: T.Action) | Deliver(deliverAction: D.Action)

  const INITIAL := State(T.INITIAL, D.INITIAL)

  ghost predicate Enabled(u: T.Setup, s: State, a: Action) {
    match a
    case Tail(b) => T.Enabled(u, s.tail, b)
    case Deliver(b) => D.Enabled(s.tail.log, s.delivery, b)
  }

  ghost function Do(u: T.Setup, s: State, a: Action): State
    requires Enabled(u, s, a)
  {
    match a
    case Tail(b) => s.(tail := T.Do(u, s.tail, b))
    case Deliver(b) => s.(delivery := D.Do(s.tail.log, s.delivery, b))
  }

  ghost predicate Run(u: T.Setup, s: State, actions: seq<Action>)
    decreases |actions|
  {
    actions != [] ==> Enabled(u, s, actions[0]) && Run(u, Do(u, s, actions[0]), actions[1..])
  }

  ghost function After(u: T.Setup, s: State, actions: seq<Action>): State
    requires Run(u, s, actions)
    decreases |actions|
  {
    if actions == [] then s else After(u, Do(u, s, actions[0]), actions[1..])
  }

  predicate DeletionFree(actions: seq<Action>) {
    forall i :: 0 <= i < |actions| && actions[i].Tail? ==> !T.Deletes(actions[i].tailAction)
  }

  // ---------- invariants of the composition ----------

  ghost predicate Delivers(u: T.Setup, s: State) {
    && D.Committed(s.tail.log, s.delivery) && D.RowsAccounted(s.tail.log, s.delivery)
    && F.Partitioned(s.tail.log, u.partitionOf) && F.FirstOnly(s.tail.log, s.delivery)
  }

  // The log grows by records that lie where their key belongs.
  lemma LogOnlyGrows(u: T.Setup, s: T.State, a: T.Action)
    requires T.Enabled(u, s, a)
    ensures T.Do(u, s, a).log == s.log
            || exists r :: T.Do(u, s, a).log == s.log + [r] && F.Partitioned([r], u.partitionOf)
  {
    if a.Publish? {
      assert F.Partitioned([Sent(u.partitionOf, T.TailerOf(s, a.w).queue[0].envelope)], u.partitionOf);
    } else if a.Foreign? {
      assert F.Partitioned([a.record], u.partitionOf);
    }
  }

  lemma PartitionedGrows(log: seq<Record>, r: Record, partitionOf: Partitioning)
    requires F.Partitioned(log, partitionOf) && F.Partitioned([r], partitionOf)
    ensures F.Partitioned(log + [r], partitionOf)
  {
    assert [r][0] == r;
  }

  lemma StepDelivers(u: T.Setup, s: State, a: Action)
    requires Enabled(u, s, a) && Delivers(u, s)
    ensures Delivers(u, Do(u, s, a))
  {
    hide D.Committed, D.RowsAccounted, F.Partitioned, F.FirstOnly;
    match a
    case Tail(b) =>
      LogOnlyGrows(u, s.tail, b);
      if T.Do(u, s.tail, b).log != s.tail.log {
        var r :| T.Do(u, s.tail, b).log == s.tail.log + [r] && F.Partitioned([r], u.partitionOf);
        D.AppendCommitted(s.tail.log, r, s.delivery);
        D.AppendRows(s.tail.log, r, s.delivery);
        F.AppendFirst(s.tail.log, r, s.delivery);
        PartitionedGrows(s.tail.log, r, u.partitionOf);
      }
    case Deliver(b) =>
      D.StepCommitted(s.tail.log, s.delivery, b);
      D.StepRows(s.tail.log, s.delivery, b);
      F.StepFirst(s.tail.log, s.delivery, b, u.partitionOf);
  }

  // In deletion-free runs the registered keys are the acknowledged ones.
  ghost predicate AckedRegistered(s: T.State) {
    forall k :: k in s.acked <==> k in s.db.keys
  }

  lemma StepAcked(u: T.Setup, s: T.State, a: T.Action)
    requires T.Enabled(u, s, a) && !T.Deletes(a) && Sound(s.db, u.shard) && AckedRegistered(s)
    ensures AckedRegistered(T.Do(u, s, a))
  {
    hide Sound;
    if a.Stage? {
      StageAcked(u, s, a);
    } else if a.Conclude? {
      ConcludeAcked(u, s, a);
    }
  }

  lemma StageAcked(u: T.Setup, s: T.State, a: T.Action)
    requires a.Stage? && T.Enabled(u, s, a) && Sound(s.db, u.shard) && AckedRegistered(s)
    ensures AckedRegistered(T.Do(u, s, a))
  {
    hide Sound, Complete, Justified, StageBatch, LegitVictims, Grouping;
    if StageBatch(s.db, u.shard, a.now, a.batch, a.groups, a.victims).Accepted? {
      StageBatchKeeps(s.db, u.shard, u.config, a.now, a.locks, a.batch, a.groups, a.victims);
      TailSafety.StageBatchMade(s.db, u.shard, e => true, a.now, a.batch, a.groups, a.victims);
    }
  }

  lemma ConcludeAcked(u: T.Setup, s: T.State, a: T.Action)
    requires a.Conclude? && T.Enabled(u, s, a) && AckedRegistered(s)
    ensures AckedRegistered(T.Do(u, s, a))
  {
  }

  ghost predicate Exact(u: T.Setup, s: State) {
    && TailSafety.Safe(u, s.tail) && TailExact.Exact(u, s.tail)
    && AckedRegistered(s.tail) && Delivers(u, s)
  }

  ghost predicate Safe(u: T.Setup, s: State) {
    TailSafety.Safe(u, s.tail) && Delivers(u, s)
  }

  lemma {:induction false} RunSafe(u: T.Setup, s: State, actions: seq<Action>)
    requires TailSafety.MadeIsProcessable(u) && Safe(u, s) && Run(u, s, actions)
    ensures Safe(u, After(u, s, actions))
    decreases |actions|
  {
    hide TailSafety.Safe, Delivers, TailSafety.MadeIsProcessable;
    if actions != [] {
      StepDelivers(u, s, actions[0]);
      if actions[0].Tail? {
        TailSafety.StepSafe(u, s.tail, actions[0].tailAction);
      }
      RunSafe(u, Do(u, s, actions[0]), actions[1..]);
    }
  }

  lemma {:induction false} RunExact(u: T.Setup, s: State, actions: seq<Action>)
    requires TailSafety.MadeIsProcessable(u) && Exact(u, s) && Run(u, s, actions) && DeletionFree(actions)
    ensures Exact(u, After(u, s, actions))
    decreases |actions|
  {
    hide TailSafety.Safe, TailExact.Exact, Delivers, AckedRegistered, TailSafety.MadeIsProcessable;
    if actions != [] {
      StepDelivers(u, s, actions[0]);
      if actions[0].Tail? {
        SafeIsSound(u, s.tail);
        TailSafety.StepSafe(u, s.tail, actions[0].tailAction);
        TailExact.StepExact(u, s.tail, actions[0].tailAction);
        StepAcked(u, s.tail, actions[0].tailAction);
      }
      RunExact(u, Do(u, s, actions[0]), actions[1..]);
    }
  }

  lemma SafeIsSound(u: T.Setup, s: T.State)
    requires TailSafety.Safe(u, s)
    ensures Sound(s.db, u.shard)
  {
  }

  lemma InitiallyExact(u: T.Setup)
    ensures Exact(u, INITIAL) && Safe(u, INITIAL)
  {
    TailSafety.InitiallySafe(u);
    TailExact.InitiallyExact(u);
    assert D.INITIAL.sink == [];
  }

  ghost predicate Reachable(u: T.Setup, s: State) {
    exists actions :: Run(u, INITIAL, actions) && s == After(u, INITIAL, actions)
  }

  ghost predicate ReachableWithoutDeletion(u: T.Setup, s: State) {
    exists actions :: Run(u, INITIAL, actions) && DeletionFree(actions) && s == After(u, INITIAL, actions)
  }

  lemma ReachableIsSafe(u: T.Setup, s: State)
    requires TailSafety.MadeIsProcessable(u) && Reachable(u, s)
    ensures Safe(u, s)
  {
    hide Safe, Exact, TailSafety.MadeIsProcessable;
    var actions :| Run(u, INITIAL, actions) && s == After(u, INITIAL, actions);
    InitiallyExact(u);
    RunSafe(u, INITIAL, actions);
  }

  lemma ReachableIsExact(u: T.Setup, s: State)
    requires TailSafety.MadeIsProcessable(u) && ReachableWithoutDeletion(u, s)
    ensures Exact(u, s)
  {
    hide Safe, Exact, TailSafety.MadeIsProcessable, DeletionFree;
    var actions :| Run(u, INITIAL, actions) && DeletionFree(actions) && s == After(u, INITIAL, actions);
    InitiallyExact(u);
    RunExact(u, INITIAL, actions);
  }
}
