// The order of a map walk can matter in runs that do happen: whichever keys are
// to be known, gateways and a tail worker can register them and settle every
// trace that held them.
module ReachableOrder {
  import opened Telemetry
  import opened Sampling
  import opened TailTables
  import opened TailMachine
  import opened TailOwners
  import opened TailOrder
  import P = Pipeline
  import Refinement

  // ---------- registering one more key ----------

  // Nothing is buffered, every trace is decided, and worker 0 is idle.
  ghost predicate Settled(s: State) {
    && s.db.buffers == map[]
    && (forall id :: id in s.db.traces ==> s.db.traces[id].status.Decided?)
    && (forall id :: id in s.db.decisions ==> id in s.db.traces)
    && TailerOf(s, 0).Idle?
  }

  ghost predicate NewTo(s: Tables, e: Envelope) {
    e.tenantId != "" && e.eventKey !in s.keys && HomeOf(e) !in s.traces
  }

  lemma StageAloneInto(s: Tables, shard: Sharding, e: Envelope)
    requires s.buffers == map[] && NewTo(s, e) && forall id :: id in s.traces ==> s.traces[id].status.Decided?
    ensures StageTrace(s, shard, 0, HomeOf(e), [e], None) == Accepted(WithSpan(s, e, Free))
    ensures LegitVictim(s, shard, {}, HomeOf(e), None)
  {
    var id := HomeOf(e);
    assert ActiveInShard(s, shard, id.tenant, shard(id.trace)) == {};
    AddFirstSpan(s, e);
    hide TailTraceId, AddSpans, ActiveInShard, WithSpan;
  }

  lemma StageGroupInto(s: Tables, shard: Sharding, e: Envelope, groups: seq<Group>, victims: seq<Option<TraceKey>>)
    requires s.buffers == map[] && NewTo(s, e) && forall id :: id in s.traces ==> s.traces[id].status.Decided?
    requires groups == [Group(TailTraceId(e), [e])] && victims == [None]
    ensures StageGroups(s, shard, 0, e.tenantId, groups, victims) == Accepted(WithSpan(s, e, Free))
    ensures LegitVictims(s, shard, 0, NoLocks, e.tenantId, groups, victims)
  {
    StageAloneInto(s, shard, e);
    hide TailTraceId, WithSpan, StageTrace, LegitVictim;
    assert groups[1..] == [] && victims[1..] == [];
  }

  lemma StageInto(u: Setup, s: State, e: Envelope)
    requires Settled(s) && NewTo(s.db, e) && u.made(e)
    ensures Enabled(u, s, StageOne(e))
    ensures Do(u, s, StageOne(e)).db == WithSpan(s.db, e, Free)
    ensures Do(u, s, StageOne(e)).tailers == s.tailers
  {
    hide TailTraceId, StageGroups, LegitVictims, WithSpan, Grouping, RuledOut;
    GroupingOfOne(e);
    StageGroupInto(s.db, u.shard, e, [Group(TailTraceId(e), [e])], [None]);
  }

  lemma ClaimableIsTheOne(s: Tables, e: Envelope)
    requires forall id :: id in s.traces ==> s.traces[id].status.Decided?
    ensures var t := WithSpan(s, e, Free);
            Claimable(t, 0, 0, {}) == {HomeOf(e)} && LegitClaim(t, 0, 0, 1, {}, [HomeOf(e)])
  {
    hide TailTraceId;
    var t := WithSpan(s, e, Free);
    assert Claimable(t, 0, 0, {}) == {HomeOf(e)};
  }

  lemma LeaseTheOne(s: Tables, e: Envelope, owner: string)
    ensures ClaimTraces(WithSpan(s, e, Free), [HomeOf(e)], owner, 15) == WithSpan(s, e, Held(owner, 15))
    ensures LeasesFor(WithSpan(s, e, Free), [HomeOf(e)]) == [TraceLease(HomeOf(e), 2)]
  {
    hide TailTraceId;
    var ids := [HomeOf(e)];
    assert ids[1..] == [];
    assert LeasesFor(WithSpan(s, e, Free), ids[1..]) == [];
    assert WithLeases(WithSpan(s, e, Free).traces, ids[1..], Held(owner, 15)) == WithSpan(s, e, Free).traces;
  }

  lemma ClaimInto(u: Setup, s: State, base: Tables, e: Envelope)
    requires s.db == WithSpan(base, e, Free) && TailerOf(s, 0).Idle?
    requires forall id :: id in base.traces ==> base.traces[id].status.Decided?
    ensures var a := ClaimOne(0, e);
            Enabled(u, s, a) && Do(u, s, a).db == WithSpan(base, e, Held(u.owner(0), 15))
            && TailerOf(Do(u, s, a), 0) == Deciding([TraceLease(HomeOf(e), 2)])
  {
    hide TailTraceId, WithSpan, LegitClaim, ClaimTraces, LeasesFor;
    ClaimableIsTheOne(base, e);
    LeaseTheOne(base, e, u.owner(0));
  }

  lemma LoadInto(u: Setup, s: State, base: Tables, e: Envelope)
    requires base.buffers == map[] && s.db == WithSpan(base, e, Held(u.owner(0), 15))
    requires TailerOf(s, 0) == Deciding([TraceLease(HomeOf(e), 2)])
    ensures var a := Load(0, [e.eventKey], [e]);
            Enabled(u, s, a) && Do(u, s, a).db == s.db
            && TailerOf(Do(u, s, a), 0) == Loaded([TraceLease(HomeOf(e), 2)], [e.eventKey], [e])
  {
    hide TailTraceId;
    assert BufferedIn(s.db, HomeOf(e)) == {e.eventKey};
  }

  // What the decision leaves.
  ghost predicate Closes(base: Tables, t: Tables, e: Envelope) {
    && t.keys == base.keys[e.eventKey := KeyRow(HomeOf(e), 0, e)] && t.buffers == map[]
    && (forall id :: id in t.traces <==> id in base.traces || id == HomeOf(e))
    && (forall id :: id in t.decisions <==> id in base.decisions || id == HomeOf(e))
    && (forall id :: id in t.traces ==> t.traces[id].status.Decided?)
  }

  // One more key and one more trace.
  ghost predicate Adds(s: Tables, t: Tables, key: string, id: TraceKey) {
    && (forall x :: x in t.keys <==> x in s.keys || x == key)
    && (forall x :: x in t.traces <==> x in s.traces || x == id)
  }

  lemma RecordInto(base: Tables, e: Envelope, owner: string, reason: Reason, retained: bool)
    requires base.buffers == map[] && NewTo(base, e)
    requires forall id :: id in base.traces ==> base.traces[id].status.Decided?
    requires forall id :: id in base.decisions ==> id in base.traces
    ensures var s, lease := WithSpan(base, e, Held(owner, 15)), TraceLease(HomeOf(e), 2);
            var r := RecordDecision(s, owner, lease, reason, retained, 0);
            r.Applied? && Closes(base, r.tables, e)
  {
    hide TailTraceId, MovedToOutbox;
    var s := WithSpan(base, e, Held(owner, 15));
    assert BufferedIn(s, HomeOf(e)) == {e.eventKey};
    assert WithoutBuffersOf(s, HomeOf(e)) == map[];
  }

  lemma ConcludeInto(u: Setup, s: State, base: Tables, e: Envelope)
    requires base.buffers == map[] && NewTo(base, e) && s.db == WithSpan(base, e, Held(u.owner(0), 15))
    requires forall id :: id in base.traces ==> base.traces[id].status.Decided?
    requires forall id :: id in base.decisions ==> id in base.traces
    requires TailerOf(s, 0) == Loaded([TraceLease(HomeOf(e), 2)], [e.eventKey], [e])
    ensures var a := Conclude(0, 0); Enabled(u, s, a) && Closes(base, Do(u, s, a).db, e)
  {
    hide TailTraceId, WithSpan, RecordDecision, Closes, Decide, RuledOut, NewTo;
    var d := VerdictOf(u, TailerOf(s, 0));
    RecordInto(base, e, u.owner(0), d.reason, d.retained);
  }

  lemma StopInto(u: Setup, s: State)
    ensures Enabled(u, s, Stop(0)) && Do(u, s, Stop(0)).db == s.db && TailerOf(Do(u, s, Stop(0)), 0).Idle?
  {
  }

  lemma Next(u: Setup, x: P.State, a: Action) returns (y: P.State)
    requires P.Reachable(u, x) && Enabled(u, x.tail, a)
    ensures P.Reachable(u, y) && y.tail == Do(u, x.tail, a)
  {
    hide P.Reachable, Enabled, Do;
    Refinement.TailStep(u, x, a);
    Refinement.StepStaysReachable(u, x, P.Tail(a));
    y := P.Do(u, x, P.Tail(a));
  }

  lemma RegisterOne(u: Setup, x: P.State, e: Envelope) returns (y: P.State)
    requires P.Reachable(u, x) && Settled(x.tail) && NewTo(x.tail.db, e) && u.made(e)
    ensures P.Reachable(u, y) && Settled(y.tail)
    ensures Adds(x.tail.db, y.tail.db, e.eventKey, HomeOf(e))
  {
    var base := x.tail.db;
    SettledTables(x.tail);
    hide P.Reachable, Enabled, Do, Settled, WithSpan, TailTraceId, HomeOf, NewTo, TailerOf, Closes, Adds;
    StageInto(u, x.tail, e);
    y := Next(u, x, StageOne(e));
    SameTailers(x.tail, y.tail);
    ClaimInto(u, y.tail, base, e);
    y := Next(u, y, ClaimOne(0, e));
    LoadInto(u, y.tail, base, e);
    y := Next(u, y, Load(0, [e.eventKey], [e]));
    ConcludeInto(u, y.tail, base, e);
    y := Next(u, y, Conclude(0, 0));
    StopInto(u, y.tail);
    y := Next(u, y, Stop(0));
    ClosedIsSettled(base, y.tail, e);
  }

  lemma SettledTables(s: State)
    requires Settled(s)
    ensures s.db.buffers == map[] && TailerOf(s, 0).Idle?
    ensures forall id :: id in s.db.traces ==> s.db.traces[id].status.Decided?
    ensures forall id :: id in s.db.decisions ==> id in s.db.traces
  {
  }

  lemma SameTailers(s: State, t: State)
    requires t.tailers == s.tailers
    ensures TailerOf(t, 0) == TailerOf(s, 0)
  {
  }

  lemma ClosedIsSettled(base: Tables, s: State, e: Envelope)
    requires Closes(base, s.db, e) && TailerOf(s, 0).Idle? && forall id :: id in base.decisions ==> id in base.traces
    ensures Settled(s) && Adds(base, s.db, e.eventKey, HomeOf(e))
  {
    hide HomeOf;
  }

  // ---------- a trace identifier nobody uses ----------

  const NAMES := 676

  function Name(n: nat): string
    requires n < NAMES
  {
    ['a' + (n / 26) as char, 'a' + (n % 26) as char]
  }

  lemma NamesDiffer(m: nat, n: nat)
    requires m < n < NAMES
    ensures Name(m) != Name(n)
  {
    assert Name(m)[0] != Name(n)[0] || Name(m)[1] != Name(n)[1];
  }

  lemma {:induction false} FreshName(used: set<string>, bound: nat) returns (name: string)
    requires |used| < bound <= NAMES
    ensures name !in used && |name| == 2 && exists i: nat :: i < bound && name == Name(i)
    decreases bound
  {
    name := Name(bound - 1);
    if name in used {
      name := FreshName(used - {name}, bound - 1);
      var i: nat :| i < bound - 1 && name == Name(i);
      NamesDiffer(i, bound - 1);
    }
  }

  // ---------- registering the keys of a batch ----------

  function Moved(e: Envelope, trace: string): Envelope {
    e.(event := e.event.(traceId := trace))
  }

  // What gateways accept in one trace they accept in any other.
  ghost predicate TracesAreFree(u: Setup) {
    forall e, trace: string :: u.made(e) && 0 < |trace| <= 128 ==> u.made(Moved(e, trace))
  }

  function TraceNames(s: Tables): set<string> {
    set id | id in s.traces :: id.trace
  }

  lemma {:induction false} ImageIsNoLarger(ids: set<TraceKey>)
    ensures |set id | id in ids :: id.trace| <= |ids|
    decreases |ids|
  {
    var names := set id | id in ids :: id.trace;
    if ids != {} {
      var id :| id in ids;
      ImageIsNoLarger(ids - {id});
      var fewer := set x | x in ids - {id} :: x.trace;
      assert names == fewer + {id.trace};
    }
  }

  // Each key but one is registered, in a settled trace that the batch does not use.
  ghost predicate Registers(s: Tables, es: seq<Envelope>, k: string, used: set<string>) {
    && (forall x :: x in s.keys <==> x in KeysOf(es) && x != k)
    && (forall id :: id in s.traces ==> id.trace !in used)
    && |s.traces.Keys| <= |es|
  }

  lemma {:induction false} RegisterKeys(u: Setup, es: seq<Envelope>, k: string, used: set<string>) returns (x: P.State)
    requires TracesAreFree(u) && forall e :: e in es ==> u.made(e) && e.tenantId != ""
    requires |used| + |es| < NAMES
    ensures P.Reachable(u, x) && Settled(x.tail) && Registers(x.tail.db, es, k, used)
    decreases |es|
  {
    hide P.Reachable, Settled, TracesAreFree, TailTraceId;
    if es == [] {
      x := P.INITIAL;
      NothingRegistered(u, k, used);
    } else {
      x := RegisterKeys(u, es[1..], k, used);
      var e := es[0];
      assert es == [e] + es[1..];
      if e.eventKey != k && e.eventKey !in x.tail.db.keys {
        ImageIsNoLarger(x.tail.db.traces.Keys);
        var trace := FreshName(used + TraceNames(x.tail.db), NAMES);
        MovedIsNew(u, x.tail.db, e, trace);
        var before := x.tail.db;
        x := RegisterOne(u, x, Moved(e, trace));
        RegistersOneMore(before, x.tail.db, es, e, k, used, trace);
      } else {
        RegistersNoMore(x.tail.db, es, e, k, used);
      }
    }
  }

  lemma NothingRegistered(u: Setup, k: string, used: set<string>)
    ensures P.Reachable(u, P.INITIAL) && Settled(P.INITIAL.tail) && Registers(P.INITIAL.tail.db, [], k, used)
  {
    assert P.Run(u, P.INITIAL, []) && P.After(u, P.INITIAL, []) == P.INITIAL;
  }

  lemma MovedIsNew(u: Setup, s: Tables, e: Envelope, trace: string)
    requires TracesAreFree(u) && u.made(e) && e.tenantId != "" && e.eventKey !in s.keys
    requires trace !in TraceNames(s) && |trace| == 2
    ensures u.made(Moved(e, trace)) && NewTo(s, Moved(e, trace))
    ensures HomeOf(Moved(e, trace)) == TraceKey(e.tenantId, trace)
  {
    assert forall id :: id in s.traces ==> id.trace in TraceNames(s);
  }

  lemma RegistersOneMore(s: Tables, t: Tables, es: seq<Envelope>, e: Envelope, k: string, used: set<string>,
                         trace: string)
    requires es != [] && e == es[0] && Registers(s, es[1..], k, used) && e.eventKey != k && trace !in used
    requires Adds(s, t, e.eventKey, TraceKey(e.tenantId, trace))
    ensures Registers(t, es, k, used)
  {
    hide KeysOf;
    FirstKey(es);
    OneMoreTrace(s, t, e.eventKey, TraceKey(e.tenantId, trace));
  }

  lemma OneMoreTrace(s: Tables, t: Tables, key: string, id: TraceKey)
    requires Adds(s, t, key, id)
    ensures |t.traces.Keys| <= |s.traces.Keys| + 1
  {
    assert t.traces.Keys == s.traces.Keys + {id};
  }

  lemma FirstKey(es: seq<Envelope>)
    requires es != []
    ensures forall x :: x in KeysOf(es) <==> x == es[0].eventKey || x in KeysOf(es[1..])
  {
    assert es == [es[0]] + es[1..];
  }

  lemma RegistersNoMore(s: Tables, es: seq<Envelope>, e: Envelope, k: string, used: set<string>)
    requires es != [] && e == es[0] && Registers(s, es[1..], k, used) && (e.eventKey == k || e.eventKey in s.keys)
    ensures Registers(s, es, k, used)
  {
    FirstKey(es);
  }

  // ---------- the exact condition, for runs ----------

  // Any two walks of the map end alike, in every state with room that a run reaches.
  ghost predicate OrderIndependentInRuns(u: Setup, batch: seq<Envelope>) {
    forall x: P.State, now: int, a: seq<Group>, aVictims: seq<Option<TraceKey>>, b: seq<Group>,
           bVictims: seq<Option<TraceKey>> ::
      P.Reachable(u, x) && OrdersIn(x.tail.db, u.shard, batch, a, aVictims)
      && OrdersIn(x.tail.db, u.shard, batch, b, bVictims) ==>
        SameResult(StageBatch(x.tail.db, u.shard, now, batch, a, aVictims),
                   StageBatch(x.tail.db, u.shard, now, batch, b, bVictims))
  }

  function TracesIn(shard: Sharding, batch: seq<Envelope>, n: Shard): set<string> {
    set trace | trace in TracesOf(batch) && shard(trace) == n
  }

  // A request has at most 200 events, and its new traces find room in each shard.
  ghost predicate Fits(shard: Sharding, batch: seq<Envelope>) {
    |batch| <= 200 && forall n: Shard :: |TracesIn(shard, batch, n)| <= SHARD_TRACES
  }

  lemma {:induction false} HomesCount(tenant: string, names: set<string>)
    ensures |set trace | trace in names :: TraceKey(tenant, trace)| <= |names|
    decreases |names|
  {
    var homes := set trace | trace in names :: TraceKey(tenant, trace);
    if names != {} {
      var trace :| trace in names;
      HomesCount(tenant, names - {trace});
      var fewer := set x | x in names - {trace} :: TraceKey(tenant, x);
      assert homes == fewer + {TraceKey(tenant, trace)};
    }
  }

  lemma {:induction false} TracesCount(batch: seq<Envelope>)
    ensures |TracesOf(batch)| <= |batch|
    decreases |batch|
  {
    hide TailTraceId;
    if batch != [] {
      TracesCount(batch[1..]);
      assert batch == [batch[0]] + batch[1..];
      assert TracesOf(batch) == {TailTraceId(batch[0])} + TracesOf(batch[1..]);
    }
  }

  lemma SettledHasRoom(s: State, shard: Sharding, tenant: string, batch: seq<Envelope>, groups: seq<Group>)
    requires Settled(s) && Fits(shard, batch) && Grouping(batch, groups)
    ensures RoomForAll(s.db, shard, tenant, groups)
  {
    hide TailTraceId, TracesOf, OfTrace;
    forall n: Shard
      ensures |ActiveInShard(s.db, shard, tenant, n) + Newcomers(s.db, shard, tenant, groups, n)| <= SHARD_TRACES
    {
      assert ActiveInShard(s.db, shard, tenant, n) == {};
      HomesCount(tenant, TracesIn(shard, batch, n));
      var homes := set trace | trace in TracesIn(shard, batch, n) :: TraceKey(tenant, trace);
      forall id | id in Newcomers(s.db, shard, tenant, groups, n) ensures id in homes {
        var g :| g in groups && Home(tenant, g) == id;
        assert g.trace in TracesIn(shard, batch, n);
      }
      SubsetIsNoLarger(ActiveInShard(s.db, shard, tenant, n) + Newcomers(s.db, shard, tenant, groups, n), homes);
    }
  }

  lemma RegisteredAwaits(s: State, tenant: string, batch: seq<Envelope>, k: string)
    requires Settled(s) && Registers(s.db, batch, k, TracesOf(batch))
    ensures Awaits(s.db, tenant, batch, k)
  {
    hide TailTraceId;
    forall e | e in batch ensures e.eventKey == k || e.eventKey in s.db.keys {
      assert e.eventKey in KeysOf(batch);
    }
  }

  lemma SharedKeyMattersInRuns(u: Setup, batch: seq<Envelope>)
    requires TracesAreFree(u) && (forall e :: e in batch ==> u.made(e)) && Fits(u.shard, batch)
    requires OneTenant(batch) && !SharedKeysRepeat(batch)
    ensures !OrderIndependentInRuns(u, batch)
  {
    var tenant := batch[0].tenantId;
    var k, trace, other :| Shared(batch, k, trace, other) && Times(OfTrace(batch, trace), k) <= 1;
    TracesCount(batch);
    var x := RegisterKeys(u, batch, k, TracesOf(batch));
    hide P.Reachable, Settled, Registers, TracesAreFree, Fits, OneTenant, Shared, Times, Awaits, Grouping, RoomForAll;
    hide SameResult, StageBatch, OrdersIn, OfTrace, TracesOf;
    RegisteredAwaits(x.tail, tenant, batch, k);
    forall groups | Grouping(batch, groups) ensures RoomForAll(x.tail.db, u.shard, tenant, groups) {
      SettledHasRoom(x.tail, u.shard, tenant, batch, groups);
    }
    var a, b := SingleSharedKeyDisagrees(x.tail.db, u.shard, batch, k, trace, other);
  }

  // The same condition is exact for the states that runs reach, for every batch
  // that fits.
  lemma OrderIndependentInRunsExactly(u: Setup, batch: seq<Envelope>)
    requires TracesAreFree(u) && (forall e :: e in batch ==> u.made(e)) && Fits(u.shard, batch)
    ensures OrderIndependentInRuns(u, batch) <==> (OneTenant(batch) ==> SharedKeysRepeat(batch))
  {
    if OneTenant(batch) ==> SharedKeysRepeat(batch) {
      OrderIndependentExactly(u.shard, batch);
      hide OrdersIn, SameResult, StageBatch, P.Reachable, OneTenant, SharedKeysRepeat;
      assert OrderIndependent(u.shard, batch);
    } else {
      SharedKeyMattersInRuns(u, batch);
    }
  }
}
