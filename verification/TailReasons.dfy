// The reasons a stored decision can give, in every run with or without deletion.
// The constraint of the table also admits an eviction for too many spans, but a
// staging that would exceed the limit is refused instead.
module TailReasons {
  import opened Telemetry
  import opened Sampling
  import opened TailTables
  import T = TailMachine
  import P = Pipeline

  predicate Recordable(row: DecisionRow) {
    !row.reason.EvictedSpanLimit? && row.retained == Retains(row.reason)
  }

  ghost predicate RecordableReasons(s: Tables) {
    && (forall id :: id in s.decisions ==> Recordable(s.decisions[id]))
    && (forall id :: id in s.traces && s.traces[id].status.Decided? ==> !s.traces[id].status.reason.EvictedSpanLimit?)
  }

  lemma EvictKeepsReasons(s: Tables, id: TraceKey, now: int)
    requires id in s.traces && RecordableReasons(s)
    ensures RecordableReasons(Evict(s, id, EvictedPressure, now))
  {
  }

  lemma AddSpansKeepsReasons(s: Tables, now: int, id: TraceKey, es: seq<Envelope>)
    requires id in s.traces && RecordableReasons(s) && AddSpans(s, now, id, es).Accepted?
    ensures RecordableReasons(AddSpans(s, now, id, es).tables)
  {
    hide Insertable, WithKeyRows, WithBufferRows, KeysOf, Index, FreshEnvelopes;
  }

  lemma StageTraceKeepsReasons(s: Tables, shard: Sharding, now: int, id: TraceKey, es: seq<Envelope>,
                               victim: Option<TraceKey>)
    requires RecordableReasons(s) && StageTrace(s, shard, now, id, es, victim).Accepted?
    ensures RecordableReasons(StageTrace(s, shard, now, id, es, victim).tables)
  {
    hide AddSpans, HasRoom, Evict;
    if id !in s.traces {
      if !HasRoom(s, shard, id) {
        EvictKeepsReasons(s, victim.value, now);
      }
      AddSpansKeepsReasons(Admit(s, shard, now, id, victim).tables, now, id, es);
    } else if s.traces[id].status.Undecided? {
      AddSpansKeepsReasons(s, now, id, es);
    }
  }

  lemma {:induction false} StageGroupsKeepsReasons(s: Tables, shard: Sharding, now: int, tenant: string,
                                                   groups: seq<Group>, victims: seq<Option<TraceKey>>)
    requires |groups| == |victims| && RecordableReasons(s)
    requires StageGroups(s, shard, now, tenant, groups, victims).Accepted?
    ensures RecordableReasons(StageGroups(s, shard, now, tenant, groups, victims).tables)
    decreases |groups|
  {
    hide StageTrace, RecordableReasons;
    if groups != [] {
      var id := TraceKey(tenant, groups[0].trace);
      StageTraceKeepsReasons(s, shard, now, id, groups[0].envelopes, victims[0]);
      var t := StageTrace(s, shard, now, id, groups[0].envelopes, victims[0]).tables;
      StageGroupsKeepsReasons(t, shard, now, tenant, groups[1..], victims[1..]);
    }
  }

  lemma ConcludeKeepsReasons(u: T.Setup, s: T.State, w: nat, now: int)
    requires T.TailerOf(s, w).Loaded? && T.TailerOf(s, w).todo != [] && RecordableReasons(s.db)
    ensures var t, d := T.TailerOf(s, w), T.VerdictOf(u, T.TailerOf(s, w));
            var r := RecordDecision(s.db, u.owner(w), t.todo[0], d.reason, d.retained, now);
            r.Applied? ==> RecordableReasons(r.tables)
  {
    var t := T.TailerOf(s, w);
    DecideIsVerdictOfTheSet(t.todo[0].id.trace, t.spans, u.config);
    hide Decide, IsError, IsSlow, Sample, MovedToOutbox;
  }

  lemma StepKeepsReasons(u: T.Setup, s: T.State, a: T.Action)
    requires T.Enabled(u, s, a) && RecordableReasons(s.db)
    ensures RecordableReasons(T.Do(u, s, a).db)
  {
    hide RecordDecision, StageGroups, T.RuledOut;
    if a.Stage? {
      if a.batch != [] && StageBatch(s.db, u.shard, a.now, a.batch, a.groups, a.victims).Accepted? {
        StageGroupsKeepsReasons(s.db, u.shard, a.now, a.batch[0].tenantId, a.groups, a.victims);
      }
    } else if a.Conclude? {
      ConcludeKeepsReasons(u, s, a.w, a.now);
    }
  }

  lemma {:induction false} RunKeepsReasons(u: T.Setup, s: P.State, actions: seq<P.Action>)
    requires P.Run(u, s, actions) && RecordableReasons(s.tail.db)
    ensures RecordableReasons(P.After(u, s, actions).tail.db)
    decreases |actions|
  {
    hide RecordableReasons, T.Do, T.Enabled;
    if actions != [] {
      if actions[0].Tail? {
        StepKeepsReasons(u, s.tail, actions[0].tailAction);
      }
      RunKeepsReasons(u, P.Do(u, s, actions[0]), actions[1..]);
    }
  }

  // No reachable decision row or trace was evicted for too many spans, and a row
  // is marked retained exactly when its reason says so.
  lemma ReasonsAreRecordable(u: T.Setup, s: P.State)
    requires P.Reachable(u, s)
    ensures forall id :: id in s.tail.db.decisions ==>
              var row := s.tail.db.decisions[id];
              !row.reason.EvictedSpanLimit? && row.retained == Retains(row.reason)
    ensures forall id :: id in s.tail.db.traces && s.tail.db.traces[id].status.Decided? ==>
              !s.tail.db.traces[id].status.reason.EvictedSpanLimit?
  {
    hide P.Run, P.After;
    var actions :| P.Run(u, P.INITIAL, actions) && s == P.After(u, P.INITIAL, actions);
    RunKeepsReasons(u, P.INITIAL, actions);
  }
}
