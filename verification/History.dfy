// What a state owes to the actions that led to it: which staging opened a trace,
// which one acknowledged a key, which decision dropped it and which deletion
// erased it. The history sets and clocks of the tables mean what they say.
module History {
  import opened Telemetry
  import opened TailTables
  import opened Pipeline
  import Sampling
  import T = TailMachine
  import L = TailLaws
  import R = RowLaws
  import S = StagingCases

  // ---------- the states of a run ----------

  ghost predicate Path(u: T.Setup, states: seq<State>, actions: seq<Action>) {
    && |states| == |actions| + 1 && states[0] == INITIAL
    && forall i :: 0 <= i < |actions| ==>
         Enabled(u, states[i], actions[i]) && states[i + 1] == Do(u, states[i], actions[i])
  }

  ghost function StatesFrom(u: T.Setup, s: State, actions: seq<Action>): (states: seq<State>)
    requires Run(u, s, actions)
    ensures |states| == |actions| + 1 && states[0] == s
    decreases |actions|
  {
    [s] + if actions == [] then [] else StatesFrom(u, Do(u, s, actions[0]), actions[1..])
  }

  // The states the run passes through, from the initial one.
  ghost function States(u: T.Setup, actions: seq<Action>): (states: seq<State>)
    requires Run(u, INITIAL, actions)
    ensures |states| == |actions| + 1
  {
    StatesFrom(u, INITIAL, actions)
  }

  lemma {:induction false} StepsFrom(u: T.Setup, s: State, actions: seq<Action>, i: nat)
    requires Run(u, s, actions) && i < |actions|
    ensures var states := StatesFrom(u, s, actions);
            Enabled(u, states[i], actions[i]) && states[i + 1] == Do(u, states[i], actions[i])
    decreases |actions|
  {
    hide Enabled, Do;
    if i > 0 {
      StepsFrom(u, Do(u, s, actions[0]), actions[1..], i - 1);
    }
  }

  lemma {:induction false} LastState(u: T.Setup, s: State, actions: seq<Action>)
    requires Run(u, s, actions)
    ensures StatesFrom(u, s, actions)[|actions|] == After(u, s, actions)
    decreases |actions|
  {
    hide Enabled, Do;
    if actions != [] {
      LastState(u, Do(u, s, actions[0]), actions[1..]);
    }
  }

  lemma RunIsPath(u: T.Setup, actions: seq<Action>)
    requires Run(u, INITIAL, actions)
    ensures Path(u, States(u, actions), actions)
    ensures States(u, actions)[|actions|] == After(u, INITIAL, actions)
  {
    hide Enabled, Do, Run, After;
    forall i | 0 <= i < |actions|
      ensures Enabled(u, States(u, actions)[i], actions[i])
      ensures States(u, actions)[i + 1] == Do(u, States(u, actions)[i], actions[i])
    {
      StepsFrom(u, INITIAL, actions, i);
    }
    LastState(u, INITIAL, actions);
  }

  // ---------- since when a trace is open ----------

  predicate IsStaging(a: Action) {
    a.Tail? && a.tailAction.Stage?
  }

  // The i-th action is the staging that created the row that is there at n.
  ghost predicate OpenedBy(states: seq<State>, actions: seq<Action>, id: TraceKey, i: nat, n: nat) {
    && i < n < |states| && i < |actions| && IsStaging(actions[i])
    && id !in states[i].tail.db.traces
    && forall m :: i < m <= n ==> id in states[m].tail.db.traces
  }

  ghost predicate TimesKept(s: Tables, t: Tables, a: T.Action) {
    forall id :: id in t.traces ==>
      || (id in s.traces && t.traces[id].firstSeen == s.traces[id].firstSeen)
      || (a.Stage? && id !in s.traces && t.traces[id].firstSeen == a.now)
  }

  lemma StagingTimes(u: T.Setup, s: T.State, a: T.Action)
    requires a.Stage? && T.Enabled(u, s, a)
    ensures TimesKept(s.db, T.Do(u, s, a).db, a)
  {
    hide StageBatch, LegitVictims, Grouping, L.KeyRows, L.BufferRows, L.OtherRows;
    if a.batch != [] && StageBatch(s.db, u.shard, a.now, a.batch, a.groups, a.victims).Accepted? {
      L.StageBatchRows(s.db, u.shard, a.now, a.locks, a.batch, a.groups, a.victims);
    } else {
      EmptyBatch(s.db, u.shard, a.now, a.groups, a.victims);
    }
  }

  lemma EmptyBatch(s: Tables, shard: Sharding, now: int, groups: seq<Group>, victims: seq<Option<TraceKey>>)
    requires |groups| == |victims|
    ensures StageBatch(s, shard, now, [], groups, victims) == Accepted(s)
  {
  }

  lemma StepTimes(u: T.Setup, s: T.State, a: T.Action)
    requires T.Enabled(u, s, a)
    ensures TimesKept(s.db, T.Do(u, s, a).db, a)
  {
    hide LegitClaim, LegitOutboxClaim, LoadedAs, Grouping, LegitVictims, StageBatch, ClaimTraces, ClaimOutbox;
    hide RecordDecision, DeleteBefore, DeleteTenant, T.RuledOut, MarkPublished;
    match a {
      case Stage(_, _, _, _, _) => StagingTimes(u, s, a);
      case ClaimLeases(w, now, _, ttl, _, _, ids) => R.LeasedRows(s.db, ids, u.owner(w), now + ttl);
      case Conclude(w, now) =>
        var t := T.TailerOf(s, w);
        var d := T.VerdictOf(u, t);
        R.RecordByCases(s.db, u.owner(w), t.todo[0], d.reason, d.retained, now);
      case TakeMessages(w, now, ttl, _, _, picked) => R.TakenRows(s.db, picked, u.owner(w), now + ttl);
      case Mark(w, now) => R.MarkByCases(s.db, u.owner(w), T.TailerOf(s, w).queue[0].key, now);
      case Retention(tenant, cutoff) => R.RetentionByRows(s.db, tenant, cutoff);
      case TenantDeletion(tenant) => R.TenantDeletionByRows(s.db, tenant);
      case _ =>
    }
  }

  // A trace row was created by a staging, and first_seen is the clock of that one.
  lemma {:induction false} FirstSeenIsOpening(u: T.Setup, states: seq<State>, actions: seq<Action>, id: TraceKey,
                                              n: nat)
    returns (i: nat)
    requires Path(u, states, actions) && n < |states| && id in states[n].tail.db.traces
    ensures OpenedBy(states, actions, id, i, n)
    ensures actions[i].tailAction.now == states[n].tail.db.traces[id].firstSeen
  {
    hide T.Enabled, T.Do;
    var s, t, a := states[n - 1], states[n], actions[n - 1];
    assert Enabled(u, states[n - 1], actions[n - 1]) && states[n - 1 + 1] == Do(u, states[n - 1], actions[n - 1]);
    if a.Tail? {
      StepTimes(u, s.tail, a.tailAction);
    }
    if id in s.tail.db.traces {
      i := FirstSeenIsOpening(u, states, actions, id, n - 1);
    } else {
      i := n - 1;
    }
  }

  ghost predicate ClocksNeverStepBack(actions: seq<Action>) {
    forall i, j :: 0 <= i < j < |actions| && IsStaging(actions[i]) && IsStaging(actions[j]) ==>
      actions[i].tailAction.now <= actions[j].tailAction.now
  }

  // In every run, a trace that a staging evicts was opened at a clock no later than
  // any other undecided trace of its shard, rows held by other transactions aside;
  // and if the clocks of the stagings never step back, no later than it in the run.
  lemma EvictedIsOldest(u: T.Setup, actions: seq<Action>, n: nat, v: TraceKey, x: TraceKey) returns (i: nat, j: nat)
    requires Run(u, INITIAL, actions) && n < |actions| && IsStaging(actions[n])
    requires var s, t, a := States(u, actions)[n].tail.db, States(u, actions)[n + 1].tail.db, actions[n].tailAction;
             && S.Evicted(s, t, v) && S.Stays(s, t, x) && S.Neighbours(u.shard, v, x)
             && x !in S.HeldRows(a.locks, a.batch)
    ensures OpenedBy(States(u, actions), actions, v, i, n) && OpenedBy(States(u, actions), actions, x, j, n)
    ensures actions[i].tailAction.now <= actions[j].tailAction.now
    ensures ClocksNeverStepBack(actions) ==> i <= j || actions[i].tailAction.now == actions[j].tailAction.now
  {
    var states := States(u, actions);
    RunIsPath(u, actions);
    hide Run, T.Enabled, T.Do, States;
    i := FirstSeenIsOpening(u, states, actions, v, n);
    j := FirstSeenIsOpening(u, states, actions, x, n);
    assert Enabled(u, states[n], actions[n]) && states[n + 1] == Do(u, states[n], actions[n]);
    StagingEvicts(u, states[n].tail, actions[n].tailAction);
  }

  lemma StagingEvicts(u: T.Setup, s: T.State, a: T.Action)
    requires a.Stage? && T.Enabled(u, s, a)
    ensures S.OldestGo(s.db, T.Do(u, s, a).db, u.shard, S.HeldRows(a.locks, a.batch))
    ensures S.OnlyFromFull(s.db, T.Do(u, s, a).db, u.shard)
  {
    hide StageBatch, LegitVictims, Grouping, S.OldestGo, S.OnlyFromFull, S.HeldRows;
    S.NoneEvicted(s.db, u.shard, S.HeldRows(a.locks, a.batch));
    if a.batch != [] && StageBatch(s.db, u.shard, a.now, a.batch, a.groups, a.victims).Accepted? {
      S.StageBatchEvictsOldest(s.db, u.shard, a.now, a.locks, a.batch, a.groups, a.victims);
    } else {
      EmptyBatch(s.db, u.shard, a.now, a.groups, a.victims);
    }
  }

  // ---------- what the history sets stand for ----------

  // The gateway was told that its batch is stored.
  ghost predicate Acknowledges(u: T.Setup, s: State, a: Action, k: string) {
    && IsStaging(a) && |a.tailAction.groups| == |a.tailAction.victims|
    && StageBatch(s.tail.db, u.shard, a.tailAction.now, a.tailAction.batch, a.tailAction.groups,
                  a.tailAction.victims).Accepted?
    && exists e :: e in a.tailAction.batch && e.eventKey == k
  }

  predicate NewlyRegistered(s: Tables, t: Tables, k: string) {
    k !in s.keys && k in t.keys
  }

  // A decision against the trace that buffers the key, or that it is registered to.
  predicate Dropped(s: Tables, t: Tables, k: string) {
    || (k in s.buffers && s.buffers[k].home in t.decisions && !t.decisions[s.buffers[k].home].retained)
    || (k in t.keys && t.keys[k].home in t.decisions && !t.decisions[t.keys[k].home].retained)
  }

  // A deletion for the tenant of a row that the key has.
  predicate Erases(s: Tables, a: T.Action, k: string) {
    && a.TenantDeletion?
    && ((k in s.buffers && s.buffers[k].home.tenant == a.tenant) || (k in s.outbox && s.outbox[k].tenant == a.tenant))
  }

  ghost predicate SetsStep(u: T.Setup, s: T.State, a: T.Action, t: T.State) {
    && (forall k :: k in t.dropped ==>
          (k in s.dropped && !NewlyRegistered(s.db, t.db, k)) || Dropped(s.db, t.db, k))
    && (forall k :: k in t.erased ==>
          (k in s.erased && !NewlyRegistered(s.db, t.db, k)) || Erases(s.db, a, k))
  }

  lemma StagingSets(u: T.Setup, s: T.State, a: T.Action)
    requires a.Stage? && T.Enabled(u, s, a)
    ensures SetsStep(u, s, a, T.Do(u, s, a))
  {
    hide StageBatch, LegitVictims, Grouping;
  }

  lemma ConcludingSets(u: T.Setup, s: T.State, a: T.Action)
    requires a.Conclude? && T.Enabled(u, s, a)
    ensures SetsStep(u, s, a, T.Do(u, s, a))
  {
    hide RecordDecision, Sampling.Decide;
    var t := T.TailerOf(s, a.w);
    var d := T.VerdictOf(u, t);
    R.RecordByCases(s.db, u.owner(a.w), t.todo[0], d.reason, d.retained, a.now);
    hide R.DecidedRows;
    DecidedKeepsKeys(s.db, u.owner(a.w), t.todo[0], d.reason, d.retained, a.now);
  }

  lemma DecidedKeepsKeys(s: Tables, owner: string, lease: TraceLease, reason: Sampling.Reason, retained: bool, now: int)
    ensures var r := RecordDecision(s, owner, lease, reason, retained, now);
            r.Applied? ==> r.tables.keys == s.keys
  {
  }

  lemma StepSets(u: T.Setup, s: T.State, a: T.Action)
    requires T.Enabled(u, s, a)
    ensures SetsStep(u, s, a, T.Do(u, s, a))
  {
    hide LegitClaim, LegitOutboxClaim, LoadedAs, Grouping, LegitVictims, StageBatch, ClaimTraces, ClaimOutbox;
    hide RecordDecision, DeleteBefore, DeleteTenant, MarkPublished;
    match a {
      case Stage(_, _, _, _, _) => StagingSets(u, s, a);
      case ClaimLeases(w, now, _, ttl, _, _, ids) => R.LeasedRows(s.db, ids, u.owner(w), now + ttl);
      case Conclude(_, _) => ConcludingSets(u, s, a);
      case TakeMessages(w, now, ttl, _, _, picked) => R.TakenRows(s.db, picked, u.owner(w), now + ttl);
      case Mark(w, now) => R.MarkByCases(s.db, u.owner(w), T.TailerOf(s, w).queue[0].key, now);
      case Retention(tenant, cutoff) => R.RetentionByRows(s.db, tenant, cutoff);
      case TenantDeletion(tenant) => R.TenantDeletionByRows(s.db, tenant);
      case _ =>
    }
  }

  lemma StepAcknowledges(u: T.Setup, s: State, a: Action, k: string)
    requires Enabled(u, s, a)
    ensures k in Do(u, s, a).tail.acked <==> k in s.tail.acked || Acknowledges(u, s, a, k)
  {
    hide StageBatch, LegitVictims, Grouping, T.RuledOut;
    hide LegitClaim, LegitOutboxClaim, LoadedAs, ClaimTraces, ClaimOutbox, RecordDecision, DeleteBefore, DeleteTenant;
    hide MarkPublished;
  }

  ghost predicate UnregisteredSince(states: seq<State>, k: string, i: nat, n: nat)
    requires n < |states|
  {
    forall m: nat :: i <= m < n ==> !NewlyRegistered(states[m].tail.db, states[m + 1].tail.db, k)
  }

  // The i-th action came with a decision against the key, which was not registered
  // anew since.
  ghost predicate DroppedAt(states: seq<State>, k: string, i: nat, n: nat) {
    && i < n < |states| && Dropped(states[i].tail.db, states[i + 1].tail.db, k)
    && UnregisteredSince(states, k, i + 1, n)
  }

  // The i-th action is a deletion for the tenant of the key's row, likewise.
  ghost predicate ErasedAt(states: seq<State>, actions: seq<Action>, k: string, i: nat, n: nat) {
    && i < n < |states| && i < |actions| && actions[i].Tail? && Erases(states[i].tail.db, actions[i].tailAction, k)
    && UnregisteredSince(states, k, i + 1, n)
  }

  lemma PathStep(u: T.Setup, states: seq<State>, actions: seq<Action>, n: nat)
    requires Path(u, states, actions) && n < |actions|
    ensures Enabled(u, states[n], actions[n]) && states[n + 1] == Do(u, states[n], actions[n])
  {
  }

  lemma {:induction false} DroppedHasEvidence(u: T.Setup, states: seq<State>, actions: seq<Action>, k: string, n: nat)
    requires Path(u, states, actions) && n < |states| && k in states[n].tail.dropped
    ensures exists i :: DroppedAt(states, k, i, n)
  {
    hide T.Enabled, T.Do, Dropped;
    if n > 0 {
      PathStep(u, states, actions, n - 1);
      var s, t := states[n - 1], states[n];
      if actions[n - 1].Tail? {
        StepSets(u, s.tail, actions[n - 1].tailAction);
      }
      if Dropped(s.tail.db, t.tail.db, k) {
        assert DroppedAt(states, k, n - 1, n);
      } else {
        DroppedHasEvidence(u, states, actions, k, n - 1);
        var i :| DroppedAt(states, k, i, n - 1);
        assert DroppedAt(states, k, i, n);
      }
    }
  }

  lemma {:induction false} ErasedHasEvidence(u: T.Setup, states: seq<State>, actions: seq<Action>, k: string, n: nat)
    requires Path(u, states, actions) && n < |states| && k in states[n].tail.erased
    ensures exists i :: ErasedAt(states, actions, k, i, n)
  {
    hide T.Enabled, T.Do, Erases;
    if n > 0 {
      PathStep(u, states, actions, n - 1);
      var s, t, a := states[n - 1], states[n], actions[n - 1];
      if a.Tail? {
        StepSets(u, s.tail, a.tailAction);
      }
      if a.Tail? && Erases(s.tail.db, a.tailAction, k) {
        assert ErasedAt(states, actions, k, n - 1, n);
      } else {
        ErasedHasEvidence(u, states, actions, k, n - 1);
        var i :| ErasedAt(states, actions, k, i, n - 1);
        assert ErasedAt(states, actions, k, i, n);
      }
    }
  }

  lemma {:induction false} AcknowledgedIsAcked(u: T.Setup, states: seq<State>, actions: seq<Action>, k: string, n: nat)
    requires Path(u, states, actions) && n < |states|
    ensures k in states[n].tail.acked <==> exists i :: 0 <= i < n && Acknowledges(u, states[i], actions[i], k)
  {
    hide Enabled, Do, Acknowledges;
    if n > 0 {
      PathStep(u, states, actions, n - 1);
      AcknowledgedIsAcked(u, states, actions, k, n - 1);
      StepAcknowledges(u, states[n - 1], actions[n - 1], k);
    }
  }
}
