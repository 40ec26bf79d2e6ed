// internal/tail/runner.go: one worker's claim, load, decide, publish and mark
// loop. Each call of Process is a run of the state machine of TailMachine by one
// worker, wherever it stops; under good conditions it makes progress.
module Runner {
  import opened Telemetry
  import opened Sampling
  import opened TailTables
  import opened TailInvariants
  import opened TailStore
  import opened Rounds
  import opened TailMachine
  import opened TailProgress
  import opened Broker

  // The clock, the broker and whatever can cut a round short. A `reliable` world
  // has a monotonic clock, a working broker and no interruption.
  class World {
    var time: int
    var log: seq<Record>
    ghost var readings: seq<int>
    const reliable: bool
    const partitionOf: Partitioning

    constructor (reliable: bool, partitionOf: Partitioning)
      ensures this.reliable == reliable && this.partitionOf == partitionOf && log == []
    {
      this.reliable, this.partitionOf, log, time, readings := reliable, partitionOf, [], 0, [];
    }

    method Now() returns (t: int)
      modifies this`time, this`readings
      ensures t == time && (reliable ==> old(time) <= time)
      ensures readings == old(readings) + [t]
    {
      var step: int := *;
      time := if reliable && step < 0 then time else time + step;
      t := time;
      readings := readings + [t];
    }

    // Rows that other transactions hold and "skip locked" passes over.
    method LockedTraces() returns (locked: set<TraceKey>)
      ensures reliable ==> locked == {}
    {
      var elsewhere: set<TraceKey> := *;
      locked := if reliable then {} else elsewhere;
    }

    method LockedMessages() returns (locked: set<string>)
      ensures reliable ==> locked == {}
    {
      var elsewhere: set<string> := *;
      locked := if reliable then {} else elsewhere;
    }

    // A publish appends at most once, and a failure may still have appended.
    method Publish(e: Envelope) returns (ok: bool, ghost appended: bool)
      modifies this`log
      ensures log == if appended then old(log) + [Sent(partitionOf, e)] else old(log)
      ensures (ok ==> appended) && (reliable ==> ok)
    {
      var lost: bool, unreported: bool := *, *;
      if lost && !reliable {
        return false, false;
      }
      log := log + [Sent(partitionOf, e)];
      return !unreported || reliable, true;
    }
  }

  datatype RunnerConfig = RunnerConfig(owner: string, quiet: int, leaseTTL: int, batchSize: int, sampling: Config)

  function Defaulted(config: RunnerConfig): RunnerConfig {
    config.(owner := if config.owner == "" then "tailer" else config.owner,
            quiet := if config.quiet <= 0 then 2 * SECOND else config.quiet,
            leaseTTL := if config.leaseTTL <= 0 then 15 * SECOND else config.leaseTTL,
            batchSize := if config.batchSize < 1 then 32 else config.batchSize)
  }

  datatype Failure = ClaimTailTracesFailed | LoadTailTraceFailed | RecordTailDecisionFailed
                   | ClaimTailOutboxFailed | PublishFailed | MarkTailOutboxFailed

  // ---------- runs of one worker ----------

  predicate ByWorker(a: Action, w: nat) {
    (a.ClaimLeases? && a.w == w) || (a.Load? && a.w == w) || (a.Conclude? && a.w == w)
    || (a.TakeMessages? && a.w == w) || (a.Publish? && a.w == w) || (a.Mark? && a.w == w) || (a.Stop? && a.w == w)
  }

  // `t` is where the actions, all of worker w, lead from `s`.
  ghost predicate Leads(u: Setup, w: nat, s: State, actions: seq<Action>, t: State) {
    && (forall i :: 0 <= i < |actions| ==> ByWorker(actions[i], w))
    && Run(u, s, actions) && After(u, s, actions) == t
  }

  lemma LeadsNowhere(u: Setup, w: nat, s: State)
    ensures Leads(u, w, s, [], s)
  {
  }

  lemma {:induction false} LeadsFurther(u: Setup, w: nat, s: State, actions: seq<Action>, t: State, a: Action)
    requires Leads(u, w, s, actions, t) && Enabled(u, t, a) && ByWorker(a, w)
    ensures Leads(u, w, s, actions + [a], Do(u, t, a))
    decreases |actions|
  {
    hide Enabled, Do, ByWorker;
    var longer := actions + [a];
    if actions == [] {
      assert longer[0] == a && longer[1..] == [];
      assert Run(u, Do(u, s, a), []) && After(u, Do(u, s, a), []) == Do(u, s, a);
    } else {
      assert longer[1..] == actions[1..] + [a];
      LeadsFurther(u, w, Do(u, s, actions[0]), actions[1..], t, a);
    }
  }

  lemma {:induction false} LeadsOn(u: Setup, w: nat, s: State, first: seq<Action>, t: State, second: seq<Action>,
                                   v: State)
    requires Leads(u, w, s, first, t) && Leads(u, w, t, second, v)
    ensures Leads(u, w, s, first + second, v)
    decreases |second|
  {
    hide Enabled, Do, ByWorker;
    if second == [] {
      assert first + second == first;
    } else {
      LeadsFurther(u, w, s, first, t, second[0]);
      assert first + second == (first + [second[0]]) + second[1..];
      LeadsOn(u, w, s, first + [second[0]], Do(u, t, second[0]), second[1..], v);
    }
  }

  // A worker touches no other worker's memory and acknowledges nothing.
  lemma {:induction false} WorkerKeepsToItself(u: Setup, w: nat, s: State, actions: seq<Action>, t: State)
    requires Leads(u, w, s, actions, t)
    ensures forall v :: v != w ==> TailerOf(t, v) == TailerOf(s, v)
    ensures t.acked == s.acked && t.erased == s.erased && DeletionFree(actions)
    decreases |actions|
  {
    if actions != [] {
      OwnStep(u, w, s, actions[0]);
      WorkerKeepsToItself(u, w, Do(u, s, actions[0]), actions[1..], t);
      forall i | 0 <= i < |actions| ensures !Deletes(actions[i]) {}
    }
  }

  lemma OwnStep(u: Setup, w: nat, s: State, a: Action)
    requires Enabled(u, s, a) && ByWorker(a, w)
    ensures var t := Do(u, s, a);
            (forall v :: v != w ==> TailerOf(t, v) == TailerOf(s, v)) && t.acked == s.acked && t.erased == s.erased
  {
    hide LegitClaim, LegitOutboxClaim, LoadedAs, ClaimOutbox, ClaimTraces, RecordDecision, Decide, MarkPublished;
    hide RuledOut;
  }

  // ---------- what each step of the machine does to the worker ----------

  lemma DoClaimLeases(u: Setup, s: State, w: nat, now: int, quiet: int, ttl: int, limit: int, locked: set<TraceKey>,
                      ids: seq<TraceKey>)
    requires TailerOf(s, w).Idle? && LegitClaim(s.db, now, quiet, limit, locked, ids)
    ensures var a := ClaimLeases(w, now, quiet, ttl, limit, locked, ids);
            && Enabled(u, s, a) && ByWorker(a, w)
            && Do(u, s, a).db == ClaimTraces(s.db, ids, u.owner(w), now + ttl) && Do(u, s, a).log == s.log
            && (forall id :: id in ids ==> id in s.db.traces)
            && TailerOf(Do(u, s, a), w) == Deciding(LeasesFor(s.db, ids))
  {
    hide LegitClaim, LegitOutboxClaim, LoadedAs, ClaimTraces;
    LegitClaimIsActive(s.db, now, quiet, limit, locked, ids);
  }

  lemma DoLoad(u: Setup, s: State, w: nat, todo: seq<TraceLease>, order: seq<string>, spans: seq<Envelope>)
    requires TailerOf(s, w) == Deciding(todo) && todo != [] && LoadedAs(s.db, todo[0].id, order, spans)
    ensures var a := Load(w, order, spans);
            Enabled(u, s, a) && Do(u, s, a).db == s.db && Do(u, s, a).log == s.log
              && TailerOf(Do(u, s, a), w) == Loaded(todo, order, spans)
  {
  }

  lemma DoConclude(u: Setup, s: State, w: nat, now: int, todo: seq<TraceLease>, order: seq<string>,
                   spans: seq<Envelope>)
    requires TailerOf(s, w) == Loaded(todo, order, spans) && todo != []
    ensures var a, d := Conclude(w, now), Decide(todo[0].id.trace, spans, u.config);
            && Enabled(u, s, a) && Do(u, s, a).log == s.log
            && match RecordDecision(s.db, u.owner(w), todo[0], d.reason, d.retained, now)
               case Applied(db) => Do(u, s, a).db == db && TailerOf(Do(u, s, a), w) == Deciding(todo[1..])
               case Stale => Do(u, s, a).db == s.db && TailerOf(Do(u, s, a), w) == Deciding(todo[1..])
               case UniqueViolation => Do(u, s, a).db == s.db
  {
    hide RecordDecision, Decide;
  }

  lemma DoTakeMessages(u: Setup, s: State, w: nat, now: int, ttl: int, limit: int, locked: set<string>,
                       picked: seq<string>)
    requires TailerOf(s, w) == Deciding([]) && LegitOutboxClaim(s.db, now, limit, locked, picked)
    ensures var a := TakeMessages(w, now, ttl, limit, locked, picked);
            && Enabled(u, s, a) && ByWorker(a, w)
            && Do(u, s, a).db == ClaimOutbox(s.db, picked, u.owner(w), now + ttl) && Do(u, s, a).log == s.log
            && (forall k :: k in picked ==> k in s.db.outbox)
            && TailerOf(Do(u, s, a), w) == Publishing(MessagesFor(s.db, picked))
  {
    hide LegitClaim, LegitOutboxClaim, LoadedAs, ClaimOutbox;
    LegitOutboxClaimIsUnpublished(s.db, now, limit, locked, picked);
  }

  lemma DoPublish(u: Setup, s: State, w: nat, reported: bool, queue: seq<Message>)
    requires TailerOf(s, w) == Publishing(queue) && queue != []
    ensures var a := Publish(w, reported);
            && Enabled(u, s, a) && Do(u, s, a).db == s.db
            && Do(u, s, a).log == s.log + [Sent(u.partitionOf, queue[0].envelope)]
            && (reported ==> TailerOf(Do(u, s, a), w) == Acknowledged(queue))
  {
  }

  lemma DoMark(u: Setup, s: State, w: nat, now: int, queue: seq<Message>)
    requires TailerOf(s, w) == Acknowledged(queue) && queue != []
    ensures var a := Mark(w, now);
            && Enabled(u, s, a) && Do(u, s, a).log == s.log
            && if OutboxHeld(s.db, u.owner(w), queue[0].key)
               then Do(u, s, a).db == MarkPublished(s.db, queue[0].key, now)
                 && TailerOf(Do(u, s, a), w) == Publishing(queue[1..])
               else Do(u, s, a).db == s.db
  {
  }

  lemma DoStop(u: Setup, s: State, w: nat)
    ensures Enabled(u, s, Stop(w)) && Do(u, s, Stop(w)).db == s.db && Do(u, s, Stop(w)).log == s.log
    ensures TailerOf(Do(u, s, Stop(w)), w).Idle?
  {
  }

  class Runner {
    const store: Store
    const world: World
    const config: RunnerConfig

    constructor (store: Store, world: World, config: RunnerConfig)
      ensures this.store == store && this.world == world && this.config == config
    {
      this.store, this.world, this.config := store, world, config;
    }

    // `u` and `s` are this worker and its surroundings as the machine sees them.
    ghost predicate Runs(u: Setup, w: nat, s: State)
      reads store, world
    {
      && u.shard == store.shard && u.config == config.sampling && u.owner(w) == Defaulted(config).owner
      && u.partitionOf == world.partitionOf
      && s.db == store.Snapshot() && s.log == world.log
    }

    // Nothing disturbs the round that began at `start`.
    ghost predicate Smooth(start: int, todo: seq<TraceLease>, queue: seq<Message>)
      reads store, world
    {
      && world.reliable && start <= world.time
      && Sound(store.Snapshot(), store.shard)
      && Underway(store.Snapshot(), start, Defaulted(config).quiet, Defaulted(config).owner, todo, queue)
    }

    // What a round decides: only traces that were quiet for 2s, unless configured, at
    // the first reading of the clock, and leases of that moment plus 15s; a `full` one
    // leaves no such trace but for the limit.
    ghost predicate DecidesFairly(before: Tables, after: Tables, readings: seq<int>, full: bool) {
      && OnlyAdded(before.outbox, after.outbox)
      && if readings == [] then after.traces == before.traces && !full
         else
           && (full ==> FullRound(before.traces, after.traces, readings[0],
                                  if config.quiet > 0 then config.quiet else 2_000_000_000,
                                  if config.batchSize >= 1 then config.batchSize else 32))
           && FairRound(before.traces, after.traces, readings[0],
                        if config.owner != "" then config.owner else "tailer",
                        if config.quiet > 0 then config.quiet else 2_000_000_000,
                        if config.leaseTTL > 0 then config.leaseTTL else 15_000_000_000,
                        if config.batchSize >= 1 then config.batchSize else 32)
    }

    // What a round sends: only messages that could be taken at some reading; a `full`
    // one publishes what it takes and leaves none but for the limit.
    ghost predicate SendsFairly(before: map<string, OutboxRow>, after: map<string, OutboxRow>, sent: seq<Record>,
                                readings: seq<int>, full: bool) {
      || (after == before && sent == [] && !full)
      || exists now :: now in readings && SendsAt(before, after, sent, now, full)
    }

    ghost predicate SendsAt(before: map<string, OutboxRow>, after: map<string, OutboxRow>, sent: seq<Record>, now: int,
                            full: bool) {
      && (full ==> FullSending(before, after, now, if config.batchSize >= 1 then config.batchSize else 32))
      && FairSending(before, after, sent, now, if config.owner != "" then config.owner else "tailer",
                  if config.leaseTTL > 0 then config.leaseTTL else 15_000_000_000,
                  if config.batchSize >= 1 then config.batchSize else 32)
    }

    ghost predicate TakesFairly(before: map<string, OutboxRow>, taken: map<string, OutboxRow>, messages: seq<Message>,
                                readings: seq<int>) {
      exists now :: now in readings && TakesAt(before, taken, messages, now)
    }

    ghost predicate TakesAt(before: map<string, OutboxRow>, taken: map<string, OutboxRow>, messages: seq<Message>,
                            now: int) {
      var c := Defaulted(config);
      && FairTaking(before, taken, messages, now, c.owner, c.leaseTTL, c.batchSize)
      && (world.reliable ==> FullTaking(before, messages, now, c.batchSize))
    }

    lemma IdleIsFair(s: Tables)
      ensures DecidesFairly(s, s, [], false)
    {
    }

    lemma ClaimIsFair(s: Tables, t: Tables, now: int, locked: set<TraceKey>, ids: seq<TraceKey>, readings: seq<int>,
                      full: bool)
      requires full ==> locked == {}
      requires var c := Defaulted(config);
               && LegitClaim(s, now, c.quiet, c.batchSize, locked, ids)
               && (forall id :: id in ids ==> id in s.traces)
               && DecidedAmong(ClaimTraces(s, ids, c.owner, now + c.leaseTTL), t, LeasedIds(LeasesFor(s, ids)))
      requires readings != [] && readings[0] == now
      ensures DecidesFairly(s, t, readings, full)
    {
      var c := Defaulted(config);
      hide LegitClaim, ClaimTraces, FairRound, FullRound;
      LeasedIdsAre(s, ids);
      ClaimedAndDecided(s, t, now, c.owner, c.quiet, c.leaseTTL, c.batchSize, locked, ids,
                        LeasedIds(LeasesFor(s, ids)));
    }

    lemma SilenceIsFair(outbox: map<string, OutboxRow>, readings: seq<int>)
      ensures SendsFairly(outbox, outbox, [], readings, false)
    {
    }

    lemma RoundIsFair(before: map<string, OutboxRow>, taken: map<string, OutboxRow>, after: map<string, OutboxRow>,
                      messages: seq<Message>, marked: nat, sent: nat, log: seq<Record>, longer: seq<Record>,
                      first: seq<int>, readings: seq<int>, full: bool)
      requires full ==> marked == |messages| && world.reliable
      requires TakesFairly(before, taken, messages, first) && first <= readings
      requires marked <= sent <= |messages| && PrefixMarked(taken, after, messages[..marked])
      requires Appended(log, longer, messages[..sent])
      ensures log <= longer && SendsFairly(before, after, longer[|log|..], readings, full)
    {
      hide FairTaking, FairSending, FullTaking, FullSending, PrefixMarked;
      var c := Defaulted(config);
      var now :| now in first && TakesAt(before, taken, messages, now);
      SendingIsFair(before, taken, after, messages, marked, sent, log, longer, now, c.owner, c.leaseTTL, c.batchSize);
      if full {
        assert messages[..marked] == messages;
        SendingIsFull(before, taken, after, messages, now, c.owner, c.leaseTTL, c.batchSize);
      }
      assert now in readings && SendsAt(before, after, longer[|log|..], now, full);
    }

    // More readings of the clock take nothing back.
    lemma FurtherReadings(s: Tables, t: Tables, before: map<string, OutboxRow>, after: map<string, OutboxRow>,
                          sent: seq<Record>, none: seq<int>, some: seq<int>, all: seq<int>, full: bool, both: bool)
      requires none < some <= all && (both ==> full)
      requires DecidesFairly(s, t, some[|none|..], full) && SendsFairly(before, after, sent, all[|some|..], both)
      ensures SendsFairly(before, after, sent, all[|none|..], both) && DecidesFairly(s, t, all[|none|..], both)
    {
      hide FairRound, FullRound, FairSending, FullSending, OnlyAdded;
      assert forall now :: now in all[|some|..] ==> now in all[|none|..];
    }

    // runner.go:87-94, for the first of the leases still to be dealt with.
    method DecideOne(todo: seq<TraceLease>, ghost u: Setup, ghost w: nat, ghost s: State, ghost before: seq<Action>,
                     ghost at: State, ghost start: int)
      returns (error: Option<Failure>, ghost actions: seq<Action>, ghost t: State)
      requires todo != [] && Leads(u, w, s, before, at) && Runs(u, w, at) && TailerOf(at, w) == Deciding(todo)
      modifies store, world`time, world`readings
      ensures Leads(u, w, s, actions, t) && Runs(u, w, t)
      ensures DecidedAmong(old(store.Snapshot()), store.Snapshot(), {todo[0].id})
      ensures old(world.readings) <= world.readings
      ensures error.None? ==> TailerOf(t, w) == Deciding(todo[1..])
      ensures old(Smooth(start, todo, [])) ==>
                error.None? && Smooth(start, todo[1..], []) && Work(store.Snapshot()) < old(Work(store.Snapshot()))
    {
      hide Enabled, Do, Leads, Underway, Sound, Work, LoadedAs, RecordDecision, Decide, StillLeased, DecidedAmong;
      NoneDecided(store.Snapshot(), {todo[0].id});
      actions, t := before, at;
      var owner := Defaulted(config).owner;
      var stopped := Interrupted(world.reliable);
      if stopped {
        return Some(LoadTailTraceFailed), actions, t;
      }
      ghost var tables := store.Snapshot();
      var spans, order := store.LoadTailTrace(todo[0]);
      DoLoad(u, t, w, todo, order, spans);
      LeadsFurther(u, w, s, actions, t, Load(w, order, spans));
      actions, t := actions + [Load(w, order, spans)], Do(u, t, Load(w, order, spans));
      var decision := Decide(todo[0].id.trace, spans, config.sampling);
      DecideIsVerdictOfTheSet(todo[0].id.trace, spans, config.sampling);
      var now := world.Now();
      var applied, violation := store.RecordTailDecision(owner, todo[0], decision, now);
      RecordedAmong(tables, owner, todo[0], decision.reason, decision.retained, now, {todo[0].id});
      DoConclude(u, t, w, now, todo, order, spans);
      LeadsFurther(u, w, s, actions, t, Conclude(w, now));
      actions, t := actions + [Conclude(w, now)], Do(u, t, Conclude(w, now));
      if old(Smooth(start, todo, [])) {
        DecisionProgress(tables, store.shard, start, Defaulted(config).quiet, owner, todo, decision.reason, now);
      }
      if violation {
        return Some(RecordTailDecisionFailed), actions, t;
      }
      stopped := Interrupted(world.reliable);
      return if stopped then Some(RecordTailDecisionFailed) else None, actions, t;
    }

    // runner.go:86-95
    method DecideClaimed(leases: seq<TraceLease>, ghost u: Setup, ghost w: nat, ghost s: State,
                         ghost before: seq<Action>, ghost at: State, ghost start: int)
      returns (error: Option<Failure>, ghost actions: seq<Action>, ghost t: State)
      requires Leads(u, w, s, before, at) && Runs(u, w, at) && TailerOf(at, w) == Deciding(leases)
      modifies store, world`time, world`readings
      ensures Leads(u, w, s, actions, t) && Runs(u, w, t)
      ensures DecidedAmong(old(store.Snapshot()), store.Snapshot(), LeasedIds(leases))
      ensures old(world.readings) <= world.readings
      ensures error.None? ==> TailerOf(t, w) == Deciding([])
      ensures old(Smooth(start, leases, [])) ==>
                error.None? && Smooth(start, [], []) && Work(store.Snapshot()) + |leases| <= old(Work(store.Snapshot()))
      ensures leases == [] ==> store.Snapshot() == old(store.Snapshot())
    {
      hide Enabled, Do, Leads, Underway, Sound, Work, DecidedAmong;
      error, actions, t := None, before, at;
      assert leases[0..] == leases;
      NoneDecided(store.Snapshot(), LeasedIds(leases));
      for i := 0 to |leases|
        invariant DecidedAmong(old(store.Snapshot()), store.Snapshot(), LeasedIds(leases))
        invariant old(world.readings) <= world.readings
        invariant Leads(u, w, s, actions, t) && Runs(u, w, t) && error.None? && TailerOf(t, w) == Deciding(leases[i..])
        invariant i == 0 ==> store.Snapshot() == old(store.Snapshot())
        invariant old(Smooth(start, leases, [])) ==>
                    Smooth(start, leases[i..], []) && Work(store.Snapshot()) + i <= old(Work(store.Snapshot()))
      {
        assert leases[i..][1..] == leases[i + 1..];
        ghost var tables := store.Snapshot();
        error, actions, t := DecideOne(leases[i..], u, w, s, actions, t, start);
        assert leases[i] in leases;
        DecidedTwice(old(store.Snapshot()), tables, store.Snapshot(), {leases[i].id}, LeasedIds(leases));
        if error.Some? {
          return;
        }
      }
      assert leases[|leases|..] == [];
    }

    // runner.go:101-106, for the first of the messages still to be sent.
    method PublishOne(queue: seq<Message>, ghost u: Setup, ghost w: nat, ghost s: State, ghost before: seq<Action>,
                      ghost at: State, ghost start: int)
      returns (error: Option<Failure>, ghost sent: bool, ghost marked: bool, ghost actions: seq<Action>, ghost t: State)
      requires queue != [] && Leads(u, w, s, before, at) && Runs(u, w, at) && TailerOf(at, w) == Publishing(queue)
      modifies store`outbox, world
      ensures Leads(u, w, s, actions, t) && Runs(u, w, t) && old(world.readings) <= world.readings
      ensures error.None? ==> TailerOf(t, w) == Publishing(queue[1..])
      ensures (marked ==> sent) && (error.None? ==> marked)
      ensures world.log == if sent
              then old(world.log) + [Sent(world.partitionOf, queue[0].envelope)] else old(world.log)
      ensures if marked then OnlyMarked(old(store.outbox), store.outbox, queue[0].key)
              else store.outbox == old(store.outbox)
      ensures old(Smooth(start, [], queue)) ==>
                error.None? && Smooth(start, [], queue[1..]) && Work(store.Snapshot()) < old(Work(store.Snapshot()))
    {
      hide Enabled, Do, Leads, Underway, Sound, Work, MarkPublished, OnlyMarked;
      error, sent, marked, actions, t := Some(PublishFailed), false, false, before, at;
      var owner := Defaulted(config).owner;
      ghost var tables := store.Snapshot();
      var stopped := Interrupted(world.reliable);
      if stopped {
        return;
      }
      var ok;
      ok, sent := world.Publish(queue[0].envelope);
      if sent {
        DoPublish(u, t, w, ok, queue);
        LeadsFurther(u, w, s, actions, t, Publish(w, ok));
        actions, t := actions + [Publish(w, ok)], Do(u, t, Publish(w, ok));
      }
      if !ok {
        return;
      }
      error := Some(MarkTailOutboxFailed);
      var now := world.Now();
      var changed := store.MarkTailOutboxPublished(owner, queue[0].key, now);
      marked := changed;
      DoMark(u, t, w, now, queue);
      LeadsFurther(u, w, s, actions, t, Mark(w, now));
      actions, t := actions + [Mark(w, now)], Do(u, t, Mark(w, now));
      if old(Smooth(start, [], queue)) {
        MarkProgress(tables, store.shard, start, Defaulted(config).quiet, owner, queue, now);
      }
      if !changed {
        return;
      }
      MarkedOnly(tables, queue[0].key, now);
      stopped := Interrupted(world.reliable);
      error := if stopped then error else None;
    }

    // runner.go:100-107: a prefix of the messages is marked, and at most one more is published.
    method PublishClaimed(messages: seq<Message>, ghost u: Setup, ghost w: nat, ghost s: State,
                          ghost before: seq<Action>, ghost at: State, ghost start: int)
      returns (error: Option<Failure>, ghost sent: nat, ghost marked: nat, ghost actions: seq<Action>, ghost t: State)
      requires Leads(u, w, s, before, at) && Runs(u, w, at) && TailerOf(at, w) == Publishing(messages)
      modifies store`outbox, world
      ensures Leads(u, w, s, actions, t) && Runs(u, w, t) && old(world.readings) <= world.readings
      ensures marked <= sent <= marked + 1 && sent <= |messages| && (error.None? ==> marked == |messages|)
      ensures Appended(old(world.log), world.log, messages[..sent])
      ensures PrefixMarked(old(store.outbox), store.outbox, messages[..marked])
      ensures old(Smooth(start, [], messages)) ==>
                error.None? && Smooth(start, [], [])
                  && Work(store.Snapshot()) + |messages| <= old(Work(store.Snapshot()))
    {
      hide Enabled, Do, Leads, Underway, Sound, Work, OnlyMarked, Appended, PrefixMarked;
      error, sent, marked, actions, t := None, 0, 0, before, at;
      assert messages[0..] == messages && messages[..0] == [];
      NothingSent(world.log, store.outbox);
      for i := 0 to |messages|
        invariant Leads(u, w, s, actions, t) && Runs(u, w, t) && error.None?
        invariant old(world.readings) <= world.readings
        invariant TailerOf(t, w) == Publishing(messages[i..])
        invariant sent == marked == i
        invariant Appended(old(world.log), world.log, messages[..i])
        invariant PrefixMarked(old(store.outbox), store.outbox, messages[..i])
        invariant old(Smooth(start, [], messages)) ==>
                    Smooth(start, [], messages[i..]) && Work(store.Snapshot()) + i <= old(Work(store.Snapshot()))
      {
        assert messages[i..][1..] == messages[i + 1..] && messages[..i + 1] == messages[..i] + [messages[i]];
        ghost var log, outbox, isSent, isMarked := world.log, store.outbox, false, false;
        error, isSent, isMarked, actions, t := PublishOne(messages[i..], u, w, s, actions, t, start);
        if isSent {
          OneMoreSent(world.partitionOf, old(world.log), log, world.log, messages[..i], messages[i]);
          sent := i + 1;
        }
        if isMarked {
          OneMoreMarked(old(store.outbox), outbox, store.outbox, messages[..i], messages[i]);
          marked := i + 1;
        }
        if error.Some? {
          return;
        }
      }
      assert messages[|messages|..] == [];
    }

    // runner.go:82-95
    method ClaimAndDecide(ghost u: Setup, ghost w: nat, ghost s: State)
      returns (error: Option<Failure>, ghost actions: seq<Action>, ghost t: State)
      requires Runs(u, w, s) && TailerOf(s, w).Idle?
      modifies store, world`time, world`readings
      ensures Leads(u, w, s, actions, t) && Runs(u, w, t)
      ensures old(world.readings) <= world.readings && (error.None? ==> old(world.readings) < world.readings)
      ensures DecidesFairly(old(store.Snapshot()), store.Snapshot(), world.readings[|old(world.readings)|..],
                            world.reliable && error.None?)
      ensures error.None? ==> TailerOf(t, w) == Deciding([])
      ensures old(CanProgress()) ==>
                && error.None? && Smooth(old(world.time), [], [])
                && Work(store.Snapshot()) <= old(Work(store.Snapshot()))
                && (Work(store.Snapshot()) < old(Work(store.Snapshot())) || store.Snapshot() == old(store.Snapshot()))
                && (old(Undecideds(store.Snapshot())) != {} ==> Work(store.Snapshot()) < old(Work(store.Snapshot())))
    {
      hide Enabled, Do, Leads, Underway, Sound, Work, Ripe, LegitClaim, Undecideds, ClaimTraces, LeasesFor, ByWorker;
      hide TailerOf, DecidesFairly, DecidedAmong;
      var settings := Defaulted(config);
      ghost var start, before := world.time, store.Snapshot();
      actions, t := [], s;
      LeadsNowhere(u, w, s);
      var stopped := Interrupted(world.reliable);
      if stopped {
        IdleIsFair(before);
        assert world.readings[|old(world.readings)|..] == [];
        return Some(ClaimTailTracesFailed), actions, t;
      }
      var now := world.Now();
      var locked := world.LockedTraces();
      var leases, ids := store.ClaimTailTraces(settings.owner, settings.quiet, settings.leaseTTL, settings.batchSize,
                                               now, locked);
      DoClaimLeases(u, t, w, now, settings.quiet, settings.leaseTTL, settings.batchSize, locked, ids);
      ghost var claim := ClaimLeases(w, now, settings.quiet, settings.leaseTTL, settings.batchSize, locked, ids);
      assert TailerOf(Do(u, t, claim), w) == Deciding(leases);
      LeadsFurther(u, w, s, actions, t, claim);
      actions, t := actions + [claim], Do(u, t, claim);
      if old(CanProgress()) {
        ClaimSmooth(before, store.shard, start, settings.quiet, now, settings.batchSize, ids, settings.owner,
                    now + settings.leaseTTL);
      }
      error, actions, t := DecideClaimed(leases, u, w, s, actions, t, start);
      ClaimIsFair(before, store.Snapshot(), now, locked, ids, world.readings[|old(world.readings)|..],
                  world.reliable && error.None?);
    }

    // runner.go:96-99
    method TakeBatch(ghost u: Setup, ghost w: nat, ghost s: State, ghost before: seq<Action>, ghost at: State,
                     ghost start: int)
      returns (error: Option<Failure>, messages: seq<Message>, ghost actions: seq<Action>, ghost t: State)
      requires Leads(u, w, s, before, at) && Runs(u, w, at) && TailerOf(at, w) == Deciding([])
      modifies store`outbox, world`time, world`readings
      ensures Leads(u, w, s, actions, t) && Runs(u, w, t) && (error.None? ==> TailerOf(t, w) == Publishing(messages))
      ensures world.log == old(world.log) && old(world.readings) <= world.readings
      ensures if error.None?
              then TakesFairly(old(store.outbox), store.outbox, messages, world.readings[|old(world.readings)|..])
              else store.outbox == old(store.outbox)
      ensures old(Smooth(start, [], [])) ==>
                && error.None? && Smooth(start, [], messages)
                && Work(store.Snapshot()) == old(Work(store.Snapshot()))
                && (old(Unpublished(store.Snapshot())) != {} ==> messages != [])
    {
      hide Enabled, Do, Leads, Underway, Sound, Work, LegitOutboxClaim, Unpublished, ClaimOutbox, MessagesFor;
      hide ByWorker, TailerOf, FairTaking, FullTaking;
      var settings := Defaulted(config);
      ghost var tables := store.Snapshot();
      messages, actions, t := [], before, at;
      var stopped := Interrupted(world.reliable);
      if stopped {
        return Some(ClaimTailOutboxFailed), messages, actions, t;
      }
      var now := world.Now();
      var locked := world.LockedMessages();
      ghost var picked;
      messages, picked := store.ClaimTailOutbox(settings.owner, settings.leaseTTL, settings.batchSize, now, locked);
      DoTakeMessages(u, t, w, now, settings.leaseTTL, settings.batchSize, locked, picked);
      ghost var take := TakeMessages(w, now, settings.leaseTTL, settings.batchSize, locked, picked);
      LeadsFurther(u, w, s, actions, t, take);
      actions, t := actions + [take], Do(u, t, take);
      if old(Smooth(start, [], [])) {
        TakeSmooth(tables, store.shard, start, settings.quiet, now, settings.batchSize, picked, settings.owner,
                   now + settings.leaseTTL);
      }
      TakingIsFair(tables, now, settings.owner, settings.leaseTTL, settings.batchSize, locked, picked);
      if world.reliable {
        TakingIsFull(tables, now, settings.batchSize, picked);
      }
      assert world.readings[|old(world.readings)|..] == [now] && TakesAt(tables.outbox, store.outbox, messages, now);
      error := None;
    }

    // runner.go:96-107
    method TakeAndPublish(ghost u: Setup, ghost w: nat, ghost s: State, ghost before: seq<Action>, ghost at: State,
                          ghost start: int)
      returns (error: Option<Failure>, ghost actions: seq<Action>, ghost t: State)
      requires Leads(u, w, s, before, at) && Runs(u, w, at) && TailerOf(at, w) == Deciding([])
      modifies store`outbox, world
      ensures Leads(u, w, s, actions, t) && Runs(u, w, t)
      ensures old(world.readings) <= world.readings && old(world.log) <= world.log
      ensures SendsFairly(old(store.outbox), store.outbox, world.log[|old(world.log)|..],
                          world.readings[|old(world.readings)|..], world.reliable && error.None?)
      ensures old(Smooth(start, [], [])) ==>
                && error.None? && Smooth(start, [], [])
                && Work(store.Snapshot()) <= old(Work(store.Snapshot()))
                && (old(Unpublished(store.Snapshot())) != {} ==> Work(store.Snapshot()) < old(Work(store.Snapshot())))
    {
      hide Leads, Smooth, Work, Unpublished, Appended, PrefixMarked, TailerOf, Runs, SendsFairly, TakesFairly;
      var messages;
      error, messages, actions, t := TakeBatch(u, w, s, before, at, start);
      ghost var taken, taking := store.outbox, world.readings;
      if error.Some? {
        assert world.log[|old(world.log)|..] == [];
        SilenceIsFair(store.outbox, world.readings[|old(world.readings)|..]);
      } else {
        ghost var sent, marked;
        error, sent, marked, actions, t := PublishClaimed(messages, u, w, s, actions, t, start);
        RoundIsFair(old(store.outbox), taken, store.outbox, messages, marked, sent, old(world.log), world.log,
                    taking[|old(world.readings)|..], world.readings[|old(world.readings)|..],
                    world.reliable && error.None?);
      }
    }

    // runner.go:68-109. Whatever stops it, a round is a run of the machine by
    // this worker; undisturbed and with nothing in force, it does some of the work.
    method Process(ghost u: Setup, ghost w: nat, ghost s: State)
      returns (error: Option<Failure>, ghost actions: seq<Action>, ghost t: State,
               ghost decided: map<string, OutboxRow>)
      requires Runs(u, w, s) && TailerOf(s, w).Idle?
      modifies store, world
      ensures Leads(u, w, s, actions, t) && Runs(u, w, t) && TailerOf(t, w).Idle?
      ensures old(world.readings) <= world.readings && old(world.log) <= world.log
      ensures DecidesFairly(old(store.Snapshot()), store.Snapshot().(outbox := decided),
                            world.readings[|old(world.readings)|..], world.reliable && error.None?)
      ensures SendsFairly(decided, store.outbox, world.log[|old(world.log)|..],
                          world.readings[|old(world.readings)|..], world.reliable && error.None?)
      ensures old(CanProgress()) ==>
                && error.None? && CanProgress() && Work(store.Snapshot()) <= old(Work(store.Snapshot()))
                && (old(Work(store.Snapshot())) > 0 ==> Work(store.Snapshot()) < old(Work(store.Snapshot())))
    {
      hide Enabled, Do, Leads, Underway, Sound, Work, Ripe, Undecideds, Unpublished, DecidesFairly, SendsFairly;
      ghost var start, before := world.time, store.Snapshot();
      error, actions, t := ClaimAndDecide(u, w, s);
      ghost var halfway, readings := store.Snapshot(), world.readings;
      decided := halfway.outbox;
      if error.None? {
        error, actions, t := TakeAndPublish(u, w, s, actions, t, start);
        FurtherReadings(before, halfway, halfway.outbox, store.outbox, world.log[|old(world.log)|..],
                        old(world.readings), readings, world.readings, world.reliable, world.reliable && error.None?);
      } else {
        assert world.log[|old(world.log)|..] == [];
        SilenceIsFair(store.outbox, world.readings[|old(world.readings)|..]);
      }
      if old(CanProgress()) {
        RoundProgress(before, halfway, store.Snapshot(), store.shard, start, world.time, Defaulted(config).quiet,
                      Defaulted(config).owner);
      }
      DoStop(u, t, w);
      LeadsFurther(u, w, s, actions, t, Stop(w));
      actions, t := actions + [Stop(w)], Do(u, t, Stop(w));
    }

    // runner.go:39-62, for as many ticks as pass before the context ends. In a
    // reliable world enough ticks leave nothing undecided, buffered or unpublished.
    method Run(ticks: nat, ghost u: Setup, ghost w: nat, ghost s: State)
      returns (error: Option<Failure>, ghost actions: seq<Action>, ghost t: State)
      requires Runs(u, w, s) && TailerOf(s, w).Idle?
      modifies store, world
      ensures Leads(u, w, s, actions, t) && Runs(u, w, t) && TailerOf(t, w).Idle?
      ensures old(CanProgress()) ==> error.None? && CanProgress()
      ensures old(CanProgress()) && old(Work(store.Snapshot())) <= ticks + 1 ==>
                && store.Snapshot().buffers == map[]
                && (forall k :: k in store.outbox ==> store.outbox[k].publishedAt.Some?)
                && (forall id :: id in store.traces ==> store.traces[id].status.Decided?)
    {
      hide Leads, Work, CanProgress;
      ghost var decided;
      error, actions, t, decided := Process(u, w, s);
      ghost var work := old(Work(store.Snapshot()));
      var tick := 0;
      while tick < ticks && error.None?
        invariant Leads(u, w, s, actions, t) && Runs(u, w, t) && TailerOf(t, w).Idle? && tick <= ticks
        invariant old(CanProgress()) ==>
                    error.None? && CanProgress()
                      && (Work(store.Snapshot()) == 0 || Work(store.Snapshot()) + tick + 1 <= work)
        decreases ticks - tick
      {
        ghost var more, v;
        error, more, v, decided := Process(u, w, t);
        LeadsOn(u, w, s, actions, t, more, v);
        actions, t := actions + more, v;
        tick := tick + 1;
      }
      if old(CanProgress()) && work <= ticks + 1 {
        NoWorkLeft(store.Snapshot());
      }
    }

    ghost predicate CanProgress()
      reads store, world
    {
      world.reliable && Sound(store.Snapshot(), store.shard)
        && Ripe(store.Snapshot(), world.time, Defaulted(config).quiet)
    }
  }
}
