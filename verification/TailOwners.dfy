// Decision freshness when traces can be deleted and created again, so that a
// generation can come back: it then rests on the owner names being distinct.
module TailOwners {
  import opened Telemetry
  import opened Sampling
  import opened TailTables
  import opened TailInvariants
  import opened TailMachine
  import opened TailEffects
  import opened TailSafety
  import opened TailExact

  ghost predicate DistinctOwners(u: Setup) {
    forall v: nat, w: nat :: u.owner(v) == u.owner(w) ==> v == w
  }

  predicate LeasedTo(s: Tables, id: TraceKey, owner: string) {
    id in s.traces && s.traces[id].lease.Held? && s.traces[id].lease.owner == owner
  }

  // What a worker remembers about the rows that still carry its name.
  ghost predicate OwnWorkFresh(s: Tables, owner: string, t: Tailer) {
    && (forall lease :: lease in TodoOf(t) && LeasedTo(s, lease.id, owner) ==>
          lease.generation <= s.traces[lease.id].generation)
    && (t.Loaded? && t.todo != [] && StillLeased(s, owner, t.todo[0]) ==> LoadedAs(s, t.todo[0].id, t.order, t.spans))
  }

  ghost predicate OwnersFresh(u: Setup, s: State) {
    forall w :: w in s.tailers ==> OwnWorkFresh(s.db, u.owner(w), s.tailers[w])
  }

  // A row still leased to `owner` is the row it was, unless its generation moved.
  ghost predicate OwnedRowsKept(s: Tables, t: Tables, owner: string) {
    forall id :: LeasedTo(t, id, owner) ==>
      && LeasedTo(s, id, owner)
      && s.traces[id].generation <= t.traces[id].generation
      && (s.traces[id].generation == t.traces[id].generation ==>
            s.traces[id].status == t.traces[id].status && SameBuffer(s, t, id))
  }

  lemma OwnWorkStaysFresh(s: Tables, t: Tables, owner: string, x: Tailer)
    requires OwnWorkFresh(s, owner, x) && OwnedRowsKept(s, t, owner)
    ensures OwnWorkFresh(t, owner, x)
  {
    if x.Loaded? && x.todo != [] && StillLeased(t, owner, x.todo[0]) {
      var lease := x.todo[0];
      assert lease in TodoOf(x) && LeasedTo(t, lease.id, owner);
      LoadTransfers(s, t, lease.id, x.order, x.spans);
    }
  }

  lemma EffectKeepsOwnedRows(s: Tables, t: Tables, owner: string)
    requires LeasesLive(s) && LeasesLive(t)
    requires Fenced(s, t) && LeasesInherited(s, t)
    ensures OwnedRowsKept(s, t, owner)
  {
  }

  lemma CloseKeepsOwnedRows(s: Tables, id: TraceKey, reason: Reason, now: int, owner: string)
    requires LeasesLive(s) && Active(s, id)
    ensures OwnedRowsKept(s, Close(s, id, reason, now), owner)
  {
    var t := Close(s, id, reason, now);
    forall other | other != id ensures SameBuffer(s, t, other) {}
  }

  lemma ClaimKeepsOthersRows(s: Tables, ids: seq<TraceKey>, claimant: string, until: int, owner: string)
    requires claimant != owner
    ensures OwnedRowsKept(s, ClaimTraces(s, ids, claimant, until), owner)
  {
  }

  lemma RetentionKeepsOwnedRows(s: Tables, tenant: string, cutoff: int, owner: string)
    requires BuffersOpen(s)
    ensures OwnedRowsKept(s, DeleteBefore(s, tenant, cutoff), owner)
  {
  }

  lemma TenantDeletionKeepsOwnedRows(s: Tables, tenant: string, owner: string)
    ensures OwnedRowsKept(s, DeleteTenant(s, tenant), owner)
  {
  }

  lemma OwnedRowsKeptByAll(u: Setup, s: State, t: State, w: nat, x: Tailer)
    requires OwnersFresh(u, s) && t.tailers == s.tailers[w := x]
    requires forall v :: v in s.tailers && v != w ==> OwnedRowsKept(s.db, t.db, u.owner(v))
    requires OwnWorkFresh(t.db, u.owner(w), x)
    ensures OwnersFresh(u, t)
  {
    forall v | v in t.tailers ensures OwnWorkFresh(t.db, u.owner(v), t.tailers[v]) {
      if v != w {
        OwnWorkStaysFresh(s.db, t.db, u.owner(v), s.tailers[v]);
      }
    }
  }

  lemma DatabaseStepOwners(u: Setup, s: State, t: State)
    requires OwnersFresh(u, s) && t.tailers == s.tailers
    requires forall v :: v in s.tailers ==> OwnedRowsKept(s.db, t.db, u.owner(v))
    ensures OwnersFresh(u, t)
  {
    forall v | v in t.tailers ensures OwnWorkFresh(t.db, u.owner(v), t.tailers[v]) {
      OwnWorkStaysFresh(s.db, t.db, u.owner(v), s.tailers[v]);
    }
  }

  lemma StageOwners(u: Setup, s: State, a: Action)
    requires a.Stage? && Enabled(u, s, a) && Sound(s.db, u.shard) && OwnersFresh(u, s)
    ensures OwnersFresh(u, Do(u, s, a))
  {
    if StageBatch(s.db, u.shard, a.now, a.batch, a.groups, a.victims).Accepted? {
      var t := Do(u, s, a);
      StageBatchEffect(s.db, u.shard, u.config, a.now, a.locks, a.batch, a.groups, a.victims);
      StageBatchKeeps(s.db, u.shard, u.config, a.now, a.locks, a.batch, a.groups, a.victims);
      forall v | v in s.tailers ensures OwnedRowsKept(s.db, t.db, u.owner(v)) {
        SoundLeases(s.db, u.shard);
        SoundLeases(t.db, u.shard);
        EffectKeepsOwnedRows(s.db, t.db, u.owner(v));
      }
      DatabaseStepOwners(u, s, t);
    }
  }

  lemma NewLeasesAreFresh(s: Tables, ids: seq<TraceKey>, owner: string, until: int)
    requires forall id :: id in ids ==> id in s.traces
    ensures OwnWorkFresh(ClaimTraces(s, ids, owner, until), owner, Deciding(LeasesFor(s, ids)))
  {
  }

  lemma ClaimOwners(u: Setup, s: State, t: State, w: nat, ids: seq<TraceKey>, until: int)
    requires forall id :: id in ids ==> id in s.db.traces
    requires TurnOf(s, t, w, ClaimTraces(s.db, ids, u.owner(w), until), Deciding(LeasesFor(s.db, ids)))
    requires DistinctOwners(u) && OwnersFresh(u, s)
    ensures OwnersFresh(u, t)
  {
    hide ClaimTraces, LeasesFor, OwnedRowsKept, OwnersFresh, OwnWorkFresh;
    NewLeasesAreFresh(s.db, ids, u.owner(w), until);
    forall v | v in s.tailers && v != w ensures OwnedRowsKept(s.db, t.db, u.owner(v)) {
      ClaimKeepsOthersRows(s.db, ids, u.owner(w), until, u.owner(v));
    }
    OwnedRowsKeptByAll(u, s, t, w, Deciding(LeasesFor(s.db, ids)));
  }

  lemma ClaimLeasesOwners(u: Setup, s: State, a: Action)
    requires a.ClaimLeases? && Enabled(u, s, a) && DistinctOwners(u) && OwnersFresh(u, s)
    ensures OwnersFresh(u, Do(u, s, a))
  {
    hide *;
    ClaimLeasesEffect(u, s, a);
    var t := Do(u, s, a);
    ClaimOwners(u, s, t, a.w, a.ids, a.now + a.ttl);
  }

  lemma ConcludeKeepsRows(u: Setup, s: State, a: Action, owner: string)
    requires a.Conclude? && Enabled(u, s, a) && DecisionsAgree(s.db) && LeasesLive(s.db)
    ensures OwnedRowsKept(s.db, Do(u, s, a).db, owner)
  {
    var x := TailerOf(s, a.w);
    var lease, d := x.todo[0], VerdictOf(u, x);
    DecideIsVerdictOfTheSet(lease.id.trace, x.spans, u.config);
    RecordCloses(s.db, u.owner(a.w), lease, d.reason, a.now);
    if StillLeased(s.db, u.owner(a.w), lease) {
      CloseKeepsOwnedRows(s.db, lease.id, d.reason, a.now, owner);
    }
    hide RecordDecision, Close, RuledOut, Decide;
  }

  lemma ConcludeEffect(u: Setup, s: State, a: Action)
    requires a.Conclude? && Enabled(u, s, a)
    ensures Do(u, s, a).tailers == s.tailers[a.w := Deciding(TailerOf(s, a.w).todo[1..])]
            || Do(u, s, a).tailers == s.tailers[a.w := Idle]
  {
    hide RecordDecision, RuledOut, Decide;
  }

  lemma FewerLeasesStayFresh(s: Tables, owner: string, x: Tailer)
    requires x.Loaded? && x.todo != [] && OwnWorkFresh(s, owner, x)
    ensures OwnWorkFresh(s, owner, Deciding(x.todo[1..])) && OwnWorkFresh(s, owner, Idle)
  {
    assert forall l :: l in x.todo[1..] ==> l in TodoOf(x);
  }

  lemma ConcludeOwners(u: Setup, s: State, a: Action)
    requires a.Conclude? && Enabled(u, s, a) && DecisionsAgree(s.db) && LeasesLive(s.db) && OwnersFresh(u, s)
    ensures OwnersFresh(u, Do(u, s, a))
  {
    var x, t := TailerOf(s, a.w), Do(u, s, a);
    assert x.Loaded? && x.todo != [] && OwnWorkFresh(s.db, u.owner(a.w), x);
    ConcludeEffect(u, s, a);
    forall owner ensures OwnedRowsKept(s.db, t.db, owner) {
      ConcludeKeepsRows(u, s, a, owner);
    }
    hide Enabled, Do, OwnedRowsKept, OwnersFresh, OwnWorkFresh, DecisionsAgree, LeasesLive;
    OwnWorkStaysFresh(s.db, t.db, u.owner(a.w), x);
    FewerLeasesStayFresh(t.db, u.owner(a.w), x);
    OwnedRowsKeptByAll(u, s, t, a.w, t.tailers[a.w]);
  }

  lemma DeletionOwners(u: Setup, s: State, a: Action)
    requires Deletes(a) && BuffersOpen(s.db) && OwnersFresh(u, s)
    ensures OwnersFresh(u, Do(u, s, a))
  {
    forall v | v in s.tailers ensures OwnedRowsKept(s.db, Do(u, s, a).db, u.owner(v)) {
      if a.Retention? {
        RetentionKeepsOwnedRows(s.db, a.tenant, a.cutoff, u.owner(v));
      } else {
        TenantDeletionKeepsOwnedRows(s.db, a.tenant, u.owner(v));
      }
    }
    DatabaseStepOwners(u, s, Do(u, s, a));
  }

  lemma OtherStepsOwners(u: Setup, s: State, a: Action)
    requires !a.Stage? && !a.ClaimLeases? && !a.Conclude? && !Deletes(a)
    requires Enabled(u, s, a) && OwnersFresh(u, s)
    ensures OwnersFresh(u, Do(u, s, a))
  {
    hide LegitOutboxClaim, Grouping, LegitVictims, StageBatch, DeleteBefore, DeleteTenant;
    var t := Do(u, s, a);
    forall v | v in s.tailers ensures OwnedRowsKept(s.db, t.db, u.owner(v)) {}
    if a.Load? {
      assert TodoOf(s.tailers[a.w]) == TailerOf(s, a.w).todo;
    }
    if a.Foreign? {
      DatabaseStepOwners(u, s, t);
    } else {
      OwnedRowsKeptByAll(u, s, t, a.w, t.tailers[a.w]);
    }
  }

  lemma SoundBuffersOpen(s: Tables, shard: Sharding)
    requires Sound(s, shard)
    ensures BuffersOpen(s)
  {
  }

  lemma StepOwners(u: Setup, s: State, a: Action)
    requires DistinctOwners(u) && Enabled(u, s, a) && Sound(s.db, u.shard) && OwnersFresh(u, s)
    ensures OwnersFresh(u, Do(u, s, a))
  {
    hide Sound, OwnersFresh, DistinctOwners;
    SoundLeases(s.db, u.shard);
    SoundBuffersOpen(s.db, u.shard);
    if Deletes(a) {
      DeletionOwners(u, s, a);
    } else {
      match a
      case Stage(_, _, _, _, _) => StageOwners(u, s, a);
      case ClaimLeases(_, _, _, _, _, _, _) => ClaimLeasesOwners(u, s, a);
      case Conclude(_, _) => ConcludeOwners(u, s, a);
      case _ => OtherStepsOwners(u, s, a);
    }
  }

  lemma {:induction false} RunOwners(u: Setup, s: State, actions: seq<Action>)
    requires MadeIsProcessable(u) && DistinctOwners(u)
    requires Safe(u, s) && OwnersFresh(u, s) && Run(u, s, actions)
    ensures OwnersFresh(u, After(u, s, actions))
    decreases |actions|
  {
    hide OwnersFresh, DistinctOwners;
    if actions != [] {
      StepOwners(u, s, actions[0]);
      StepSafe(u, s, actions[0]);
      RunOwners(u, Do(u, s, actions[0]), actions[1..]);
    }
  }

  // ---------- what a stale decision is, and when one can happen ----------

  // Worker w is about to have a decision applied to rows it did not load.
  ghost predicate DecidesBlindly(u: Setup, s: State, w: nat) {
    var x := TailerOf(s, w);
    && x.Loaded? && x.todo != []
    && StillLeased(s.db, u.owner(w), x.todo[0])
    && !LoadedAs(s.db, x.todo[0].id, x.order, x.spans)
  }

  lemma DistinctOwnersDecideFresh(u: Setup, actions: seq<Action>, w: nat)
    requires MadeIsProcessable(u) && DistinctOwners(u) && Run(u, INITIAL, actions)
    ensures !DecidesBlindly(u, After(u, INITIAL, actions), w)
  {
    InitiallySafe(u);
    RunOwners(u, INITIAL, actions);
  }

  lemma DeletionFreeRunsDecideFresh(u: Setup, actions: seq<Action>, w: nat)
    requires Run(u, INITIAL, actions) && DeletionFree(actions)
    ensures !DecidesBlindly(u, After(u, INITIAL, actions), w)
  {
    InitiallyExact(u);
    RunExact(u, INITIAL, actions);
  }

  // ---------- a shared owner name ----------

  function HomeOf(e: Envelope): TraceKey {
    TraceKey(e.tenantId, TailTraceId(e))
  }

  function OneSpan(e: Envelope, lease: Lease): Tables {
    Tables(map[HomeOf(e) := TraceRow(0, 0, 2, 1, lease, Undecided)],
           map[e.eventKey := BufferRow(HomeOf(e), e, 0)],
           map[e.eventKey := KeyRow(HomeOf(e), 0, e)],
           map[], map[])
  }

  function StageOne(e: Envelope): Action {
    Stage(0, NoLocks, [e], [Group(TailTraceId(e), [e])], [None])
  }

  function ClaimOne(w: nat, e: Envelope): Action {
    ClaimLeases(w, 0, 0, 15, 1, {}, [HomeOf(e)])
  }

  lemma GroupingOfOne(e: Envelope)
    ensures Grouping([e], [Group(TailTraceId(e), [e])])
  {
    assert OfTrace([e][1..], TailTraceId(e)) == [];
    assert e in [e];
    assert TailTraceId(e) in TracesOf([e]);
    assert [Group(TailTraceId(e), [e])][0].trace == TailTraceId(e);
  }

  // The tables with one more trace, of the one span.
  function WithSpan(s: Tables, e: Envelope, lease: Lease): Tables {
    s.(traces := s.traces[HomeOf(e) := TraceRow(0, 0, 2, 1, lease, Undecided)],
       buffers := s.buffers[e.eventKey := BufferRow(HomeOf(e), e, 0)],
       keys := s.keys[e.eventKey := KeyRow(HomeOf(e), 0, e)])
  }

  lemma OneFreshSpan(keys: map<string, KeyRow>, e: Envelope)
    requires e.eventKey !in keys
    ensures FreshEnvelopes(keys, [e]) == [e] && KeysOf([e]) == {e.eventKey} && Index([e]) == map[e.eventKey := e]
  {
    assert FreshEnvelopes(keys, [e]) == [e] by {
      assert FreshEnvelopes(keys, [e][1..]) == [];
    }
    assert Index([e]) == map[e.eventKey := e] by {
      assert Index([e][1..]) == map[];
    }
  }

  lemma RegisterFirst(s: Tables, e: Envelope)
    ensures Registered(Opened(s, 0, HomeOf(e)), 0, HomeOf(e), map[e.eventKey := e]) == WithSpan(s, e, Free)
  {
    hide HomeOf, WithKeyRows, WithBufferRows;
    var t, id, added := Opened(s, 0, HomeOf(e)), HomeOf(e), map[e.eventKey := e];
    OneRowEach(s, e, id);
    assert t.traces[id := Grown(t.traces[id], 0, 1)] == s.traces[id := TraceRow(0, 0, 2, 1, Free, Undecided)];
  }

  lemma OneRowEach(s: Tables, e: Envelope, id: TraceKey)
    ensures WithKeyRows(s.keys, map[e.eventKey := e], id, 0) == s.keys[e.eventKey := KeyRow(id, 0, e)]
    ensures WithBufferRows(s.buffers, map[e.eventKey := e], id, 0) == s.buffers[e.eventKey := BufferRow(id, e, 0)]
  {
  }

  lemma AddFirstSpan(s: Tables, e: Envelope)
    requires e.eventKey !in s.keys && e.eventKey !in s.buffers
    ensures AddSpans(Opened(s, 0, HomeOf(e)), 0, HomeOf(e), [e]) == Accepted(WithSpan(s, e, Free))
  {
    hide HomeOf, FreshEnvelopes, KeysOf, Index, Registered, WithSpan;
    OneFreshSpan(s.keys, e);
    RegisterFirst(s, e);
  }

  lemma StageAloneIntoEmpty(shard: Sharding, e: Envelope)
    ensures StageTrace(EMPTY, shard, 0, HomeOf(e), [e], None) == Accepted(OneSpan(e, Free))
    ensures LegitVictim(EMPTY, shard, {}, HomeOf(e), None)
  {
    var id := HomeOf(e);
    assert ActiveInShard(EMPTY, shard, id.tenant, shard(id.trace)) == {};
    AddFirstSpan(EMPTY, e);
    hide TailTraceId, AddSpans, ActiveInShard;
  }

  lemma StageOneGroup(shard: Sharding, e: Envelope, groups: seq<Group>, victims: seq<Option<TraceKey>>)
    requires groups == [Group(TailTraceId(e), [e])] && victims == [None]
    ensures StageGroups(EMPTY, shard, 0, e.tenantId, groups, victims) == Accepted(OneSpan(e, Free))
    ensures LegitVictims(EMPTY, shard, 0, NoLocks, e.tenantId, groups, victims)
  {
    StageAloneIntoEmpty(shard, e);
    hide TailTraceId, OneSpan, StageTrace, LegitVictim;
    assert groups[1..] == [] && victims[1..] == [];
  }

  lemma StageIntoEmpty(u: Setup, s: State, e: Envelope)
    requires s.db == EMPTY && u.made(e) && e.tenantId != ""
    ensures Enabled(u, s, StageOne(e))
    ensures Do(u, s, StageOne(e)).db == OneSpan(e, Free)
    ensures Do(u, s, StageOne(e)).tailers == s.tailers
  {
    hide TailTraceId, StageGroups, LegitVictims, OneSpan, Grouping;
    GroupingOfOne(e);
    StageOneGroup(u.shard, e, [Group(TailTraceId(e), [e])], [None]);
  }

  lemma ClaimTheOne(u: Setup, s: State, w: nat, e: Envelope)
    requires s.db == OneSpan(e, Free) && TailerOf(s, w).Idle?
    ensures Enabled(u, s, ClaimOne(w, e))
    ensures Do(u, s, ClaimOne(w, e))
              == s.(db := OneSpan(e, Held(u.owner(w), 15)),
                    tailers := s.tailers[w := Deciding([TraceLease(HomeOf(e), 2)])])
  {
    var ids := [HomeOf(e)];
    assert Claimable(s.db, 0, 0, {}) == {HomeOf(e)};
    assert LeasesFor(s.db, ids) == [TraceLease(HomeOf(e), 2)] by {
      assert LeasesFor(s.db, ids[1..]) == [];
    }
  }

  lemma LoadTheOne(s: Tables, e: Envelope, lease: Lease)
    requires s == OneSpan(e, lease)
    ensures LoadedAs(s, HomeOf(e), [e.eventKey], [e])
    ensures forall other: Envelope :: other != e ==> !LoadedAs(s, HomeOf(e), [other.eventKey], [other])
  {
    hide TailTraceId;
    assert BufferedIn(s, HomeOf(e)) == {e.eventKey};
    forall other: Envelope | other != e ensures !LoadedAs(s, HomeOf(e), [other.eventKey], [other]) {
      var order, spans := [other.eventKey], [other];
      assert order[0] == other.eventKey && spans[0] == other;
    }
  }

  lemma DeletedIsEmpty(e: Envelope, lease: Lease)
    ensures DeleteTenant(OneSpan(e, lease), e.tenantId) == EMPTY
  {
  }

  // Worker v loads `first`; the tenant is deleted and sends `second` for the same
  // trace; worker w, of the same name, leases the new row at the old generation.
  function StaleRun(v: nat, w: nat, first: Envelope, second: Envelope): seq<Action> {
    [StageOne(first), ClaimOne(v, first), Load(v, [first.eventKey], [first]),
     TenantDeletion(first.tenantId), StageOne(second), ClaimOne(w, second)]
  }

  lemma RunSix(u: Setup, s: State, a: seq<Action>, s1: State, s2: State, s3: State, s4: State, s5: State, s6: State)
    requires |a| == 6
    requires Enabled(u, s, a[0]) && s1 == Do(u, s, a[0]) && Enabled(u, s1, a[1]) && s2 == Do(u, s1, a[1])
    requires Enabled(u, s2, a[2]) && s3 == Do(u, s2, a[2]) && Enabled(u, s3, a[3]) && s4 == Do(u, s3, a[3])
    requires Enabled(u, s4, a[4]) && s5 == Do(u, s4, a[4]) && Enabled(u, s5, a[5]) && s6 == Do(u, s5, a[5])
    ensures Run(u, s, a) && After(u, s, a) == s6
  {
    hide Enabled, Do;
    assert a[1..][1..][1..][1..][1..][1..] == [];
    assert Run(u, s6, []) && After(u, s6, []) == s6;
    assert a[1..][1..][1..][1..][1..] == [a[5]] && Run(u, s5, [a[5]]) && After(u, s5, [a[5]]) == s6;
    assert a[1..][1..][1..][1..] == [a[4], a[5]] && [a[4], a[5]][1..] == [a[5]];
    assert Run(u, s4, [a[4], a[5]]) && After(u, s4, [a[4], a[5]]) == s6;
    assert [a[3], a[4], a[5]][1..] == [a[4], a[5]];
    assert Run(u, s3, [a[3], a[4], a[5]]) && After(u, s3, [a[3], a[4], a[5]]) == s6;
    assert [a[2], a[3], a[4], a[5]][1..] == [a[3], a[4], a[5]];
    assert Run(u, s2, [a[2], a[3], a[4], a[5]]) && After(u, s2, [a[2], a[3], a[4], a[5]]) == s6;
    assert [a[1], a[2], a[3], a[4], a[5]][1..] == [a[2], a[3], a[4], a[5]];
    assert Run(u, s1, [a[1], a[2], a[3], a[4], a[5]]) && After(u, s1, [a[1], a[2], a[3], a[4], a[5]]) == s6;
    assert a[1..] == [a[1], a[2], a[3], a[4], a[5]];
  }

  lemma LoadThenDeletion(u: Setup, s: State, v: nat, e: Envelope)
    requires s.db == OneSpan(e, Held(u.owner(v), 15)) && TailerOf(s, v) == Deciding([TraceLease(HomeOf(e), 2)])
    ensures var load, delete := Load(v, [e.eventKey], [e]), TenantDeletion(e.tenantId);
            && Enabled(u, s, load) && Enabled(u, Do(u, s, load), delete)
            && var t := Do(u, Do(u, s, load), delete);
               t.db == EMPTY && t.tailers == s.tailers[v := Loaded([TraceLease(HomeOf(e), 2)], [e.eventKey], [e])]
  {
    hide TailTraceId;
    LoadTheOne(s.db, e, Held(u.owner(v), 15));
    DeletedIsEmpty(e, Held(u.owner(v), 15));
  }

  lemma LeasedBlindly(u: Setup, s: State, v: nat, first: Envelope, second: Envelope)
    requires first != second && HomeOf(first) == HomeOf(second)
    requires s.db == OneSpan(second, Held(u.owner(v), 15))
    requires TailerOf(s, v) == Loaded([TraceLease(HomeOf(first), 2)], [first.eventKey], [first])
    ensures DecidesBlindly(u, s, v)
  {
    hide TailTraceId, LoadedAs;
    LoadTheOne(s.db, second, Held(u.owner(v), 15));
  }

  lemma SharedOwnerDecidesBlindly(u: Setup, v: nat, w: nat, first: Envelope, second: Envelope)
    requires v != w && u.owner(v) == u.owner(w)
    requires u.made(first) && u.made(second) && first != second
    requires first.tenantId != "" && HomeOf(first) == HomeOf(second)
    ensures var actions := StaleRun(v, w, first, second);
            Run(u, INITIAL, actions) && DecidesBlindly(u, After(u, INITIAL, actions), v)
  {
    hide TailTraceId, OneSpan, LoadedAs, Run, After, Do, Enabled, DecidesBlindly;
    var a := StaleRun(v, w, first, second);
    StageIntoEmpty(u, INITIAL, first);
    var s1 := Do(u, INITIAL, a[0]);
    ClaimTheOne(u, s1, v, first);
    var s2 := Do(u, s1, a[1]);
    LoadThenDeletion(u, s2, v, first);
    var s3 := Do(u, s2, a[2]);
    var s4 := Do(u, s3, a[3]);
    StageIntoEmpty(u, s4, second);
    var s5 := Do(u, s4, a[4]);
    ClaimTheOne(u, s5, w, second);
    var s6 := Do(u, s5, a[5]);
    RunSix(u, INITIAL, a, s1, s2, s3, s4, s5, s6);
    LeasedBlindly(u, s6, v, first, second);
  }

  // Fresh decisions in every run, deletions included, if and only if no two
  // workers share an owner name.
  lemma FreshExactlyForDistinctOwners(u: Setup, first: Envelope, second: Envelope)
    requires MadeIsProcessable(u)
    requires u.made(first) && u.made(second) && first != second && HomeOf(first) == HomeOf(second)
    ensures (forall actions: seq<Action>, w: nat :: Run(u, INITIAL, actions) ==>
              !DecidesBlindly(u, After(u, INITIAL, actions), w))
            <==> DistinctOwners(u)
  {
    if DistinctOwners(u) {
      forall actions: seq<Action>, w: nat | Run(u, INITIAL, actions)
        ensures !DecidesBlindly(u, After(u, INITIAL, actions), w)
      {
        DistinctOwnersDecideFresh(u, actions, w);
      }
    } else {
      var v: nat, w: nat :| u.owner(v) == u.owner(w) && v != w;
      SharedOwnerDecidesBlindly(u, v, w, first, second);
      var actions := StaleRun(v, w, first, second);
      assert Run(u, INITIAL, actions) && DecidesBlindly(u, After(u, INITIAL, actions), v);
    }
  }
}
