// internal/metadata/tail.go: the Store whose methods are the transactions. Each
// method works on the rows step by step, as the statements do, and is proved to
// have exactly the effect that TailTables describes; an error rolls back.
module TailStore {
  import opened Telemetry
  import opened Sampling
  import opened TailTables
  import opened TailInvariants
  import opened TailLaws
  import opened StagingCases
  import opened RowLaws

  // ---------- order by ... limit ----------

  method Oldest<T(!new, ==)>(candidates: set<T>, age: T -> int) returns (oldest: T)
    requires candidates != {}
    ensures oldest in candidates
    ensures forall c :: c in candidates ==> age(oldest) <= age(c)
  {
    oldest :| oldest in candidates;
    var rest := candidates - {oldest};
    while rest != {}
      invariant oldest in candidates && rest <= candidates
      invariant forall c :: c in candidates && c !in rest ==> age(oldest) <= age(c)
      decreases rest
    {
      var c :| c in rest;
      if age(c) < age(oldest) {
        oldest := c;
      }
      rest := rest - {c};
    }
  }

  method TakeOldest<T(!new, ==)>(candidates: set<T>, age: T -> int, limit: nat) returns (picked: seq<T>)
    ensures OldestFirst(candidates, age, limit, picked)
  {
    picked := [];
    var rest := candidates;
    while rest != {} && |picked| < limit
      invariant rest <= candidates && |picked| <= limit
      invariant forall c :: c in candidates <==> c in rest || c in picked
      invariant forall i :: 0 <= i < |picked| ==> picked[i] !in rest
      invariant forall i, j :: 0 <= i < j < |picked| ==> picked[i] != picked[j] && age(picked[i]) <= age(picked[j])
      invariant forall i, c :: 0 <= i < |picked| && c in rest ==> age(picked[i]) <= age(c)
      decreases rest
    {
      var next := Oldest(rest, age);
      picked := picked + [next];
      rest := rest - {next};
    }
  }

  // ---------- "update ... returning" ----------

  method SetLeases(traces: map<TraceKey, TraceRow>, ids: seq<TraceKey>, lease: Lease)
    returns (updated: map<TraceKey, TraceRow>)
    requires forall id :: id in ids ==> id in traces
    ensures updated == WithLeases(traces, ids, lease)
  {
    hide WithLeases;
    updated := traces;
    NoLeases(traces, ids, lease);
    for i := |ids| downto 0
      invariant updated == WithLeases(traces, ids[i..], lease)
    {
      OneLease(traces, ids, lease, i);
      updated := updated[ids[i] := updated[ids[i]].(lease := lease)];
    }
    assert ids[0..] == ids;
  }

  lemma NoLeases(traces: map<TraceKey, TraceRow>, ids: seq<TraceKey>, lease: Lease)
    ensures WithLeases(traces, ids[|ids|..], lease) == traces
  {
  }

  lemma OneLease(traces: map<TraceKey, TraceRow>, ids: seq<TraceKey>, lease: Lease, i: nat)
    requires i < |ids| && ids[i] in traces
    ensures var rest := WithLeases(traces, ids[i + 1..], lease);
            WithLeases(traces, ids[i..], lease) == rest[ids[i] := rest[ids[i]].(lease := lease)]
  {
    assert ids[i..][1..] == ids[i + 1..];
  }

  method ReturningLeases(s: Tables, ids: seq<TraceKey>) returns (leases: seq<TraceLease>)
    requires forall id :: id in ids ==> id in s.traces
    ensures leases == LeasesFor(s, ids)
  {
    leases := [];
    for i := 0 to |ids|
      invariant |leases| == i
      invariant forall j :: 0 <= j < i ==> leases[j] == TraceLease(ids[j], s.traces[ids[j]].generation)
    {
      leases := leases + [TraceLease(ids[i], s.traces[ids[i]].generation)];
    }
  }

  method SetAttempts(outbox: map<string, OutboxRow>, picked: seq<string>, lease: Lease)
    returns (updated: map<string, OutboxRow>)
    requires forall k :: k in picked ==> k in outbox
    ensures updated == WithAttempts(outbox, picked, lease)
  {
    hide WithAttempts;
    updated := outbox;
    NoAttempts(outbox, picked, lease);
    for i := |picked| downto 0
      invariant updated == WithAttempts(outbox, picked[i..], lease)
    {
      OneAttempt(outbox, picked, lease, i);
      updated := updated[picked[i] := outbox[picked[i]].(lease := lease, attempts := outbox[picked[i]].attempts + 1)];
    }
    assert picked[0..] == picked;
  }

  lemma NoAttempts(outbox: map<string, OutboxRow>, picked: seq<string>, lease: Lease)
    ensures WithAttempts(outbox, picked[|picked|..], lease) == outbox
  {
  }

  lemma OneAttempt(outbox: map<string, OutboxRow>, picked: seq<string>, lease: Lease, i: nat)
    requires i < |picked| && picked[i] in outbox
    ensures WithAttempts(outbox, picked[i..], lease)
            == var row := outbox[picked[i]];
               var counted := row.(lease := lease, attempts := row.attempts + 1);
               WithAttempts(outbox, picked[i + 1..], lease)[picked[i] := counted]
  {
    assert picked[i..][1..] == picked[i + 1..];
  }

  method ReturningMessages(s: Tables, picked: seq<string>) returns (messages: seq<Message>)
    requires forall k :: k in picked ==> k in s.outbox
    ensures messages == MessagesFor(s, picked)
  {
    messages := [];
    for i := 0 to |picked|
      invariant |messages| == i
      invariant forall j :: 0 <= j < i ==> messages[j] == Message(picked[j], s.outbox[picked[j]].envelope)
    {
      messages := messages + [Message(picked[i], s.outbox[picked[i]].envelope)];
    }
  }

  // ---------- grouping a batch by trace ----------

  lemma {:induction false} OfTraceAppend(batch: seq<Envelope>, e: Envelope, trace: string)
    ensures OfTrace(batch + [e], trace) == OfTrace(batch, trace) + if TailTraceId(e) == trace then [e] else []
  {
    if batch != [] {
      assert (batch + [e])[1..] == batch[1..] + [e];
      OfTraceAppend(batch[1..], e, trace);
    }
  }

  lemma TracesAppend(batch: seq<Envelope>, e: Envelope)
    ensures TracesOf(batch + [e]) == TracesOf(batch) + {TailTraceId(e)}
  {
    hide TailTraceId;
    forall x | x in batch + [e] ensures TailTraceId(x) in TracesOf(batch) + {TailTraceId(e)} {}
    forall t | t in TracesOf(batch) ensures t in TracesOf(batch + [e]) {
      var x :| x in batch && TailTraceId(x) == t;
      assert x in batch + [e];
    }
    assert e in batch + [e];
  }

  lemma {:induction false} OfOtherTrace(batch: seq<Envelope>, trace: string)
    requires trace !in TracesOf(batch)
    ensures OfTrace(batch, trace) == []
  {
    hide TailTraceId;
    if batch != [] {
      assert batch[0] in batch;
      forall t | t in TracesOf(batch[1..]) ensures t in TracesOf(batch) {
        var x :| x in batch[1..] && TailTraceId(x) == t;
        assert x in batch;
      }
      OfOtherTrace(batch[1..], trace);
    }
  }

  ghost predicate Groups(batch: seq<Envelope>, byTrace: map<string, seq<Envelope>>) {
    && (forall t :: t in byTrace <==> t in TracesOf(batch))
    && (forall t :: t in byTrace ==> byTrace[t] == OfTrace(batch, t))
  }

  lemma GroupsAppend(batch: seq<Envelope>, e: Envelope, byTrace: map<string, seq<Envelope>>)
    requires Groups(batch, byTrace)
    ensures var trace := TailTraceId(e);
            Groups(batch + [e], byTrace[trace := (if trace in byTrace then byTrace[trace] else []) + [e]])
  {
    TracesAppend(batch, e);
    forall t ensures OfTrace(batch + [e], t) == OfTrace(batch, t) + if TailTraceId(e) == t then [e] else [] {
      OfTraceAppend(batch, e, t);
    }
    forall t | t !in TracesOf(batch) ensures OfTrace(batch, t) == [] {
      OfOtherTrace(batch, t);
    }
    hide TailTraceId, OfTrace, TracesOf;
  }

  lemma NoGroups()
    ensures Groups([], map[])
  {
    hide TailTraceId;
  }

  method GroupByTrace(batch: seq<Envelope>) returns (byTrace: map<string, seq<Envelope>>)
    ensures Groups(batch, byTrace)
  {
    hide TailTraceId, Groups;
    byTrace := map[];
    NoGroups();
    assert batch[..0] == [];
    for i := 0 to |batch|
      invariant Groups(batch[..i], byTrace)
    {
      var traceId := TailTraceId(batch[i]);
      assert batch[..i + 1] == batch[..i] + [batch[i]];
      GroupsAppend(batch[..i], batch[i], byTrace);
      byTrace := byTrace[traceId := (if traceId in byTrace then byTrace[traceId] else []) + [batch[i]]];
    }
    assert batch[..|batch|] == batch;
  }

  // The groups in the order in which the map happens to be walked.
  method WalkGroups(batch: seq<Envelope>) returns (groups: seq<Group>)
    ensures Grouping(batch, groups)
  {
    hide TracesOf, OfTrace;
    var byTrace := GroupByTrace(batch);
    groups := [];
    var pending := byTrace.Keys;
    ghost var walked: set<string> := {};
    while pending != {}
      invariant forall t :: t in byTrace <==> t in pending || t in walked
      invariant forall t :: t in walked ==> t !in pending && exists i :: 0 <= i < |groups| && groups[i].trace == t
      invariant forall i :: 0 <= i < |groups| ==>
                  groups[i].trace in walked && groups[i].envelopes == OfTrace(batch, groups[i].trace)
      invariant forall i, j :: 0 <= i < j < |groups| ==> groups[i].trace != groups[j].trace
      decreases pending
    {
      var traceId :| traceId in pending;
      ghost var before := groups;
      groups := groups + [Group(traceId, byTrace[traceId])];
      pending := pending - {traceId};
      assert groups[|before|].trace == traceId;
      forall t | t in walked ensures exists i :: 0 <= i < |groups| && groups[i].trace == t {
        var i :| 0 <= i < |before| && before[i].trace == t;
        assert groups[i].trace == t;
      }
      walked := walked + {traceId};
    }
  }

  // ---------- staging group after group ----------

  lemma {:induction false} StageGroupsSplit(s: Tables, shard: Sharding, now: int, locks: Locks, tenant: string,
                                            groups: seq<Group>, victims: seq<Option<TraceKey>>,
                                            rest: seq<Group>, restVictims: seq<Option<TraceKey>>)
    requires |groups| == |victims| && |rest| == |restVictims|
    requires StageGroups(s, shard, now, tenant, groups, victims).Accepted?
    ensures var t := StageGroups(s, shard, now, tenant, groups, victims).tables;
            && StageGroups(s, shard, now, tenant, groups + rest, victims + restVictims)
               == StageGroups(t, shard, now, tenant, rest, restVictims)
            && (LegitVictims(s, shard, now, locks, tenant, groups + rest, victims + restVictims)
                <==> LegitVictims(s, shard, now, locks, tenant, groups, victims)
                     && LegitVictims(t, shard, now, locks, tenant, rest, restVictims))
    decreases |groups|
  {
    hide StageTrace, LegitVictim;
    if groups == [] {
      assert groups + rest == rest && victims + restVictims == restVictims;
    } else {
      var t := StageTrace(s, shard, now, TraceKey(tenant, groups[0].trace), groups[0].envelopes, victims[0]).tables;
      assert (groups + rest)[1..] == groups[1..] + rest && (victims + restVictims)[1..] == victims[1..] + restVictims;
      StageGroupsSplit(t, shard, now, locks, tenant, groups[1..], victims[1..], rest, restVictims);
    }
  }

  lemma StageOneGroup(s: Tables, shard: Sharding, now: int, locks: Locks, tenant: string, g: Group,
                      v: Option<TraceKey>)
    ensures StageGroups(s, shard, now, tenant, [g], [v])
              == StageTrace(s, shard, now, TraceKey(tenant, g.trace), g.envelopes, v)
    ensures LegitVictims(s, shard, now, locks, tenant, [g], [v]) <==>
              LegitVictim(s, shard, locks(g.trace), TraceKey(tenant, g.trace), v)
  {
    hide StageTrace, LegitVictim;
    assert [g][1..] == [] && [v][1..] == [];
  }

  lemma StageNextGroup(s: Tables, t: Tables, shard: Sharding, now: int, locks: Locks, tenant: string,
                       groups: seq<Group>, i: nat, victims: seq<Option<TraceKey>>, victim: Option<TraceKey>)
    requires i < |groups| && |victims| == i
    requires StageGroups(s, shard, now, tenant, groups[..i], victims) == Accepted(t)
    requires LegitVictims(s, shard, now, locks, tenant, groups[..i], victims)
    requires LegitVictim(t, shard, locks(groups[i].trace), TraceKey(tenant, groups[i].trace), victim)
    ensures StageGroups(s, shard, now, tenant, groups[..i + 1], victims + [victim])
            == StageTrace(t, shard, now, TraceKey(tenant, groups[i].trace), groups[i].envelopes, victim)
    ensures LegitVictims(s, shard, now, locks, tenant, groups[..i + 1], victims + [victim])
  {
    hide StageGroups, LegitVictims, StageTrace, LegitVictim;
    assert groups[..i + 1] == groups[..i] + [groups[i]];
    StageOneGroup(t, shard, now, locks, tenant, groups[i], victim);
    StageGroupsSplit(s, shard, now, locks, tenant, groups[..i], victims, [groups[i]], [victim]);
  }

  // ---------- the deduplicating insert ----------

  lemma {:induction false} FreshAppend(keys: map<string, KeyRow>, es: seq<Envelope>, e: Envelope)
    ensures FreshEnvelopes(keys, es + [e]) == FreshEnvelopes(keys, es) + if e.eventKey in keys then [] else [e]
  {
    if es == [] {
      assert [e][1..] == [] && [] + [e] == [e];
    } else {
      var longer := es + [e];
      assert longer[0] == es[0] && longer[1..] == es[1..] + [e];
      FreshAppend(keys, es[1..], e);
      var head := if es[0].eventKey in keys then [] else [es[0]];
      var last := if e.eventKey in keys then [] else [e];
      assert head + (FreshEnvelopes(keys, es[1..]) + last) == (head + FreshEnvelopes(keys, es[1..])) + last;
    }
  }

  method SelectFresh(keys: map<string, KeyRow>, inserted: set<string>, es: seq<Envelope>) returns (added: seq<Envelope>)
    requires inserted == KeysOf(FreshEnvelopes(keys, es))
    ensures added == FreshEnvelopes(keys, es)
  {
    FreshEnvelopesAreNew(keys, es);
    added := [];
    for i := 0 to |es|
      invariant added == FreshEnvelopes(keys, es[..i])
    {
      assert es[..i + 1] == es[..i] + [es[i]];
      FreshAppend(keys, es[..i], es[i]);
      assert es[i] in es;
      if es[i].eventKey in inserted {
        added := added + [es[i]];
      }
    }
    assert es[..|es|] == es;
  }

  // ---------- what the two inserts leave behind ----------

  lemma SameKeySameEnvelope(es: seq<Envelope>, a: Envelope, b: Envelope)
    requires DistinctKeys(es) && a in es && b in es && a.eventKey == b.eventKey
    ensures a == b
  {
  }

  lemma InsertableAppend(buffers: map<string, BufferRow>, added: seq<Envelope>, e: Envelope)
    ensures Insertable(buffers, added + [e]) <==>
              Insertable(buffers, added) && e.eventKey !in buffers && e.eventKey !in KeysOf(added)
    ensures KeysOf(added + [e]) == KeysOf(added) + {e.eventKey}
  {
    var longer := added + [e];
    assert longer[|added|] == e && longer[..|added|] == added;
    forall x ensures x in longer <==> x in added || x == e {}
    if Insertable(buffers, longer) {
      forall i, j | 0 <= i < j < |added| ensures added[i].eventKey != added[j].eventKey {
        assert longer[i] == added[i] && longer[j] == added[j];
      }
    }
  }

  lemma {:induction false} InsertableSplit(buffers: map<string, BufferRow>, added: seq<Envelope>, rest: seq<Envelope>)
    requires Insertable(buffers, added + rest)
    ensures Insertable(buffers, added)
  {
    var all := added + rest;
    forall i | 0 <= i < |added| ensures all[i] == added[i] {}
  }

  // The plain insert: a repeated or already buffered key violates the primary key.
  method InsertRows(buffers: map<string, BufferRow>, id: TraceKey, added: seq<Envelope>, now: int)
    returns (rows: Option<map<string, BufferRow>>)
    ensures rows.Some? <==> Insertable(buffers, added)
    ensures rows.Some? ==> rows.value == WithBufferRows(buffers, Index(added), id, now)
  {
    hide Insertable, KeysOf;
    var filled := buffers;
    InsertableEmpty(buffers);
    assert added[..0] == [];
    for i := 0 to |added|
      invariant Insertable(buffers, added[..i])
      invariant forall k :: k in filled <==> k in buffers || k in KeysOf(added[..i])
      invariant forall k :: k in buffers ==> filled[k] == buffers[k]
      invariant forall j :: 0 <= j < i ==>
                  added[j].eventKey in filled && filled[added[j].eventKey] == BufferRow(id, added[j], now)
    {
      assert added[..i + 1] == added[..i] + [added[i]];
      InsertableAppend(buffers, added[..i], added[i]);
      if added[i].eventKey in filled {
        assert !Insertable(buffers, added) by {
          if Insertable(buffers, added) {
            assert added == added[..i + 1] + added[i + 1..];
            InsertableSplit(buffers, added[..i + 1], added[i + 1..]);
          }
        }
        return None;
      }
      forall j | 0 <= j < i ensures added[j].eventKey in filled && added[j].eventKey != added[i].eventKey {}
      filled := filled[added[i].eventKey := BufferRow(id, added[i], now)];
    }
    assert added[..|added|] == added;
    FilledIsExpected(buffers, filled, added, id, now);
    rows := Some(filled);
  }

  lemma InsertableEmpty(buffers: map<string, BufferRow>)
    ensures Insertable(buffers, []) && KeysOf([]) == {}
  {
  }

  lemma FilledIsExpected(buffers: map<string, BufferRow>, filled: map<string, BufferRow>, added: seq<Envelope>,
                         id: TraceKey, now: int)
    requires forall k :: k in filled <==> k in buffers || k in KeysOf(added)
    requires forall k :: k in buffers ==> filled[k] == buffers[k]
    requires Insertable(buffers, added)
    requires forall j :: 0 <= j < |added| ==>
               added[j].eventKey in filled && filled[added[j].eventKey] == BufferRow(id, added[j], now)
    ensures filled == WithBufferRows(buffers, Index(added), id, now)
  {
    hide WithBufferRows, Index;
    var expected := WithBufferRows(buffers, Index(added), id, now);
    forall k | k in Index(added) ensures k in filled && filled[k] == expected[k] {
      var j :| 0 <= j < |added| && added[j] == Index(added)[k];
    }
    assert forall k :: k in filled <==> k in expected;
  }

  lemma InsertableCount(buffers: map<string, BufferRow>, added: seq<Envelope>)
    requires Insertable(buffers, added)
    ensures |Index(added)| == |added|
  {
    DistinctKeysCount(added);
  }

  lemma FreshKeys(keys: map<string, KeyRow>, es: seq<Envelope>, inserted: set<string>)
    requires forall k :: k in inserted <==> k in KeysOf(es) && k !in keys
    ensures inserted == KeysOf(FreshEnvelopes(keys, es))
    ensures inserted == {} <==> FreshEnvelopes(keys, es) == []
  {
    FreshEnvelopesAreNew(keys, es);
    var added := FreshEnvelopes(keys, es);
    if added != [] {
      assert added[0] in added;
    }
  }

  lemma KeysAreExpected(keys: map<string, KeyRow>, filled: map<string, KeyRow>, es: seq<Envelope>,
                        added: seq<Envelope>, id: TraceKey, now: int)
    requires added == FreshEnvelopes(keys, es) && DistinctKeys(added)
    requires forall k :: k in filled <==> k in keys || k in KeysOf(added)
    requires forall k :: k in KeysOf(added) ==> k !in keys
    requires forall k :: k in keys ==> filled[k] == keys[k]
    requires forall k :: k in KeysOf(added) ==>
               filled[k] == KeyRow(id, now, filled[k].origin) && filled[k].origin in es
                 && filled[k].origin.eventKey == k
    ensures filled == WithKeyRows(keys, Index(added), id, now)
  {
    hide WithKeyRows, Index, FreshEnvelopes;
    FreshEnvelopesAreNew(keys, es);
    var expected := WithKeyRows(keys, Index(added), id, now);
    forall k | k in Index(added) ensures filled[k] == expected[k] {
      SameKeySameEnvelope(added, filled[k].origin, Index(added)[k]);
    }
    assert forall k :: k in filled <==> k in expected;
  }

  // "insert ... on conflict do nothing returning event_key": the first row with a new key is inserted.
  method InsertKeys(keys: map<string, KeyRow>, id: TraceKey, es: seq<Envelope>, now: int,
                    ghost buffers: map<string, BufferRow>)
    returns (filled: map<string, KeyRow>, inserted: set<string>)
    ensures var added := FreshEnvelopes(keys, es);
            && inserted == KeysOf(added)
            && (inserted == {} <==> added == [])
            && (inserted == {} ==> filled == keys)
            && (Insertable(buffers, added) ==> filled == WithKeyRows(keys, Index(added), id, now))
  {
    hide FreshEnvelopes, DistinctKeys, Index, WithKeyRows;
    filled, inserted := keys, {};
    for i := 0 to |es|
      invariant forall k :: k in inserted ==> k in KeysOf(es) && k !in keys
      invariant forall j :: 0 <= j < i ==> es[j].eventKey in filled
      invariant forall k :: k in filled <==> k in keys || k in inserted
      invariant forall k :: k in keys ==> filled[k] == keys[k]
      invariant forall k :: k in inserted ==>
                  filled[k] == KeyRow(id, now, filled[k].origin) && filled[k].origin in es
                    && filled[k].origin.eventKey == k
    {
      var key := es[i].eventKey;
      if key !in filled {
        filled := filled[key := KeyRow(id, now, es[i])];
        inserted := inserted + {key};
      }
    }
    FreshKeys(keys, es, inserted);
    if Insertable(buffers, FreshEnvelopes(keys, es)) {
      KeysAreExpected(keys, filled, es, FreshEnvelopes(keys, es), id, now);
    }
  }

  lemma RegisteredRows(s: Tables, now: int, id: TraceKey, added: map<string, Envelope>)
    requires id in s.traces
    ensures Registered(s, now, id, added)
            == Tables(s.traces[id := Grown(s.traces[id], now, |added|)], WithBufferRows(s.buffers, added, id, now),
                      WithKeyRows(s.keys, added, id, now), s.decisions, s.outbox)
  {
    hide WithKeyRows, WithBufferRows;
  }

  // "insert ... on conflict (event_key) do nothing", one row after the other.
  method InsertMessages(outbox: map<string, OutboxRow>, buffers: map<string, BufferRow>, ordered: seq<string>,
                        ghost held: set<string>,
                        tenant: string, now: int)
    returns (filled: map<string, OutboxRow>)
    requires held <= buffers.Keys && forall k :: k in ordered <==> k in held
    ensures filled == WithOutboxRows(outbox, buffers, held, tenant, now)
  {
    hide WithOutboxRows;
    filled := outbox;
    for i := 0 to |ordered|
      invariant forall k :: k in filled ==> k in outbox || k in held
      invariant forall j :: 0 <= j < i ==> ordered[j] in filled
      invariant forall k :: k in outbox ==> k in filled && filled[k] == outbox[k]
      invariant forall k :: k in filled && k !in outbox ==>
                  filled[k] == OutboxRow(tenant, buffers[k].envelope, 0, Free, None, now)
    {
      var k := ordered[i];
      if k !in filled {
        filled := filled[k := OutboxRow(tenant, buffers[k].envelope, 0, Free, None, now)];
      }
    }
    forall k | k in held ensures k in filled {
      assert k in ordered;
    }
    ghost var expected := WithOutboxRows(outbox, buffers, held, tenant, now);
    assert forall k :: k in filled <==> k in expected;
    assert filled == expected;
  }

  class Store {
    var traces: map<TraceKey, TraceRow>
    var buffers: map<string, BufferRow>
    var keys: map<string, KeyRow>
    var decisions: map<TraceKey, DecisionRow>
    var outbox: map<string, OutboxRow>
    const shard: Sharding

    constructor (shard: Sharding)
      ensures Snapshot() == EMPTY && this.shard == shard
    {
      this.shard := shard;
      traces, buffers, keys, decisions, outbox := map[], map[], map[], map[], map[];
    }

    function Snapshot(): Tables
      reads this
    {
      Tables(traces, buffers, keys, decisions, outbox)
    }

    method Rollback(saved: Tables)
      modifies this
      ensures Snapshot() == saved
    {
      traces, buffers, keys := saved.traces, saved.buffers, saved.keys;
      decisions, outbox := saved.decisions, saved.outbox;
    }

    // ---------- StageBatch ----------

    method StageBatch(batch: seq<Envelope>, now: int, locks: Locks)
      returns (error: Option<StageError>, ghost groups: seq<Group>, ghost victims: seq<Option<TraceKey>>)
      modifies this
      ensures |groups| == |victims|
      ensures match TailTables.StageBatch(old(Snapshot()), shard, now, batch, groups, victims)
              case Accepted(t) => error.None? && Snapshot() == t
              case Refused(e) => error == Some(e) && Snapshot() == old(Snapshot())
      ensures error !in {Some(TenantMissing), Some(CrossesTenants)} ==> Grouping(batch, groups)
      ensures error !in {Some(TenantMissing), Some(CrossesTenants)} && batch != [] ==>
                LegitVictims(old(Snapshot()), shard, now, locks, batch[0].tenantId, groups, victims)
      ensures error == Some(TenantMissing) <==> batch != [] && batch[0].tenantId == ""
      ensures error == Some(CrossesTenants) <==>
              batch != [] && batch[0].tenantId != "" && exists e :: e in batch && e.tenantId != batch[0].tenantId
      ensures error.None? && batch != [] ==>
                && StagedRows(old(Snapshot()), Snapshot(), now, batch[0].tenantId, batch)
                && OldestGo(old(Snapshot()), Snapshot(), shard, HeldRows(locks, batch))
                && OnlyFromFull(old(Snapshot()), Snapshot(), shard)
    {
      hide StagedRows, OldestGo, OnlyFromFull, HeldRows, LegitVictims, StageGroups;
      groups, victims := [], [];
      if |batch| == 0 {
        return None, groups, victims;
      }
      var tenant := batch[0].tenantId;
      if tenant == "" {
        return Some(TenantMissing), groups, victims;
      }
      for i := 0 to |batch|
        invariant forall j :: 0 <= j < i ==> batch[j].tenantId == tenant
      {
        if batch[i].tenantId != tenant {
          return Some(CrossesTenants), groups, victims;
        }
      }
      var walk := WalkGroups(batch);
      ghost var before := Snapshot();
      error, victims := StageAll(tenant, walk, now, locks);
      groups := walk;
      if error.None? {
        StageBatchRows(before, shard, now, locks, batch, groups, victims);
        StageBatchEvictsOldest(before, shard, now, locks, batch, groups, victims);
      }
    }

    method StageAll(tenant: string, groups: seq<Group>, now: int, locks: Locks)
      returns (error: Option<StageError>, ghost victims: seq<Option<TraceKey>>)
      modifies this
      ensures |groups| == |victims|
      ensures match StageGroups(old(Snapshot()), shard, now, tenant, groups, victims)
              case Accepted(t) => error.None? && Snapshot() == t
              case Refused(e) => error == Some(e) && Snapshot() == old(Snapshot())
      ensures LegitVictims(old(Snapshot()), shard, now, locks, tenant, groups, victims)
      ensures error !in {Some(TenantMissing), Some(CrossesTenants)}
    {
      var saved := Snapshot();
      victims := [];
      assert StageGroups(saved, shard, now, tenant, groups[..0], victims) == Accepted(saved);
      assert LegitVictims(saved, shard, now, locks, tenant, groups[..0], victims);
      hide StageGroups, LegitVictims, StageTrace, LegitVictim;
      for i := 0 to |groups|
        invariant |victims| == i
        invariant StageGroups(saved, shard, now, tenant, groups[..i], victims) == Accepted(Snapshot())
        invariant LegitVictims(saved, shard, now, locks, tenant, groups[..i], victims)
      {
        ghost var before := Snapshot();
        ghost var victim;
        error, victim := StageTraceTx(TraceKey(tenant, groups[i].trace), groups[i].envelopes, now,
                                      locks(groups[i].trace));
        if error.Some? {
          victims := PadVictims(saved, before, tenant, groups, i, now, locks, victims, victim, error.value);
          Rollback(saved);
          return;
        }
        StageNextGroup(saved, before, shard, now, locks, tenant, groups, i, victims, victim);
        victims := victims + [victim];
      }
      assert groups[..|groups|] == groups;
      error := None;
    }

    // A refusal at group i refuses the batch, whatever the later victims would be.
    ghost method PadVictims(saved: Tables, before: Tables, tenant: string, groups: seq<Group>, i: nat, now: int,
                            locks: Locks,
                            victims: seq<Option<TraceKey>>, victim: Option<TraceKey>, error: StageError)
      returns (padded: seq<Option<TraceKey>>)
      requires i < |groups| && |victims| == i
      requires StageGroups(saved, shard, now, tenant, groups[..i], victims) == Accepted(before)
      requires LegitVictims(saved, shard, now, locks, tenant, groups[..i], victims)
      requires StageTrace(before, shard, now, TraceKey(tenant, groups[i].trace), groups[i].envelopes, victim)
                 == Refused(error)
      requires LegitVictim(before, shard, locks(groups[i].trace), TraceKey(tenant, groups[i].trace), victim)
      ensures |padded| == |groups|
      ensures StageGroups(saved, shard, now, tenant, groups, padded) == Refused(error)
      ensures LegitVictims(saved, shard, now, locks, tenant, groups, padded)
    {
      hide StageTrace, LegitVictim;
      var rest := groups[i..];
      var restVictims := [victim] + seq(|groups| - i - 1, _ => None);
      assert restVictims[0] == victim && rest[0] == groups[i];
      StageGroupsSplit(saved, shard, now, locks, tenant, groups[..i], victims, rest, restVictims);
      assert groups[..i] + rest == groups;
      padded := victims + restVictims;
    }

    // ---------- one trace of a batch ----------

    method StageTraceTx(id: TraceKey, es: seq<Envelope>, now: int, locked: set<TraceKey>)
      returns (error: Option<StageError>, ghost victim: Option<TraceKey>)
      modifies this
      ensures LegitVictim(old(Snapshot()), shard, locked, id, victim)
      ensures match StageTrace(old(Snapshot()), shard, now, id, es, victim)
              case Accepted(t) => error.None? && Snapshot() == t
              case Refused(e) => error == Some(e)
      ensures error.None? ==>
                StagedTrace(old(Snapshot()), Snapshot(), now, id, es, victim) || Snapshot() == old(Snapshot())
      ensures error !in {Some(TenantMissing), Some(CrossesTenants)}
      ensures error == Some(BufferFull) <==>
              var peers := Peers(old(Snapshot()), shard, id);
              id !in old(traces) && |peers| >= 100 && peers <= locked
    {
      hide StagedTrace, Peers, AddSpans;
      ghost var before := Snapshot();
      victim := None;
      if id !in traces {
        var active := ActiveInShard(Snapshot(), shard, id.tenant, shard(id.trace));
        if |active| >= SHARD_TRACES {
          error, victim := EvictOldestTailTrace(active, now, locked);
          if error.Some? {
            StagedByCases(before, shard, now, locked, id, es, victim);
            return;
          }
        }
        traces := traces[id := TraceRow(now, now, 1, 0, Free, Undecided)];
      } else if traces[id].status.Decided? {
        var known := AllKnown(id, es);
        error := if known then None else Some(TraceClosed);
        StagedByCases(before, shard, now, locked, id, es, victim);
        return;
      }
      error := InsertSpans(id, es, now);
      StagedByCases(before, shard, now, locked, id, es, victim);
    }

    // Are all distinct keys of the envelopes registered to the trace?
    method AllKnown(id: TraceKey, es: seq<Envelope>) returns (known: bool)
      ensures known <==> forall e :: e in es ==> KnownTo(Snapshot(), id, e.eventKey)
    {
      var unique: set<string> := {};
      for i := 0 to |es|
        invariant unique == KeysOf(es[..i])
      {
        assert es[..i + 1] == es[..i] + [es[i]];
        unique := unique + {es[i].eventKey};
      }
      assert es[..|es|] == es;
      var registered := set k | k in unique && k in keys && keys[k].home == id;
      known := |registered| == |unique|;
      CountDecides(registered, unique);
      assert known <==> forall k :: k in unique ==> KnownTo(Snapshot(), id, k);
      assert forall e :: e in es ==> e.eventKey in unique;
    }

    static lemma CountDecides(part: set<string>, whole: set<string>)
      requires part <= whole
      ensures |part| == |whole| <==> part == whole
    {
      if part != whole {
        assert whole == part + (whole - part);
      }
    }

    method EvictOldestTailTrace(active: set<TraceKey>, now: int, locked: set<TraceKey>)
      returns (error: Option<StageError>, ghost victim: Option<TraceKey>)
      requires active <= traces.Keys
      modifies this
      ensures match victim
              case None => active - locked == {} && error == Some(BufferFull) && Snapshot() == old(Snapshot())
              case Some(v) =>
                && v in active && v !in locked && error.None?
                && (forall t :: t in active - locked ==> old(traces)[v].firstSeen <= old(traces)[t].firstSeen)
                && Snapshot() == Evict(old(Snapshot()), v, EvictedPressure, now)
    {
      var candidates := active - locked;
      if candidates == {} {
        return Some(BufferFull), None;
      }
      var rows := traces;
      var oldest := Oldest(candidates, id => if id in rows then rows[id].firstSeen else 0);
      EvictTailTrace(oldest, EvictedPressure, now);
      return None, Some(oldest);
    }

    method EvictTailTrace(id: TraceKey, reason: Sampling.Reason, now: int)
      requires id in traces
      modifies this
      ensures Snapshot() == Evict(old(Snapshot()), id, reason, now)
    {
      var held := BufferedIn(Snapshot(), id);
      var count := |held|;
      buffers := buffers - held;
      if traces[id].status.Undecided? {
        traces := traces[id := traces[id].(status := Decided(reason, now), lease := Free, spanCount := count)];
      }
      if id !in decisions {
        decisions := decisions[id := DecisionRow(reason, false, count, now)];
      }
    }

    method InsertSpans(id: TraceKey, es: seq<Envelope>, now: int) returns (error: Option<StageError>)
      requires Active(Snapshot(), id)
      modifies this
      ensures match AddSpans(old(Snapshot()), now, id, es)
              case Accepted(t) => error.None? && Snapshot() == t
              case Refused(e) => error == Some(e)
    {
      hide KeysOf, Index, FreshEnvelopes, WithKeyRows, WithBufferRows, Insertable, DistinctKeys, Registered, Grown;
      var before := Snapshot();
      var inserted;
      keys, inserted := InsertKeys(keys, id, es, now, buffers);
      if |inserted| == 0 {
        return None;
      }
      if traces[id].spanCount + |inserted| > MAX_SPANS {
        return Some(TraceClosed);
      }
      var added := SelectFresh(before.keys, inserted, es);
      error := InsertBuffers(id, added, now);
      RegisteredRows(before, now, id, Index(added));
    }

    method InsertBuffers(id: TraceKey, added: seq<Envelope>, now: int) returns (error: Option<StageError>)
      requires Active(Snapshot(), id)
      modifies this`buffers, this`traces
      ensures !Insertable(old(buffers), added) ==> error == Some(DuplicateKey)
      ensures Insertable(old(buffers), added) ==>
                && error.None? && buffers == WithBufferRows(old(buffers), Index(added), id, now)
                && traces == old(traces)[id := Grown(old(traces)[id], now, |Index(added)|)]
    {
      hide Index, WithKeyRows, WithBufferRows, Insertable;
      var rows := InsertRows(buffers, id, added, now);
      if rows.None? {
        return Some(DuplicateKey);
      }
      InsertableCount(buffers, added);
      buffers := rows.value;
      var row := traces[id];
      if row.status.Undecided? {
        traces := traces[id := row.(lastSeen := now, generation := row.generation + 1,
                                    spanCount := row.spanCount + |added|)];
      }
      return None;
    }

    // ---------- leases and decisions ----------

    method ClaimTailTraces(owner: string, quiet: int, ttl: int, limit: int, now: int, locked: set<TraceKey>)
      returns (leases: seq<TraceLease>, ghost ids: seq<TraceKey>)
      modifies this`traces
      ensures LegitClaim(old(Snapshot()), now, quiet, limit, locked, ids)
      ensures leases == LeasesFor(old(Snapshot()), ids)
      ensures Snapshot() == ClaimTraces(old(Snapshot()), ids, owner, now + ttl)
    {
      var before := Snapshot();
      var atMost := if limit < 1 then 1 else limit;
      var selected := TakeOldest(Claimable(before, now, quiet, locked), LastSeen(before), atMost);
      ids := selected;
      assert forall id :: id in selected ==> id in Claimable(before, now, quiet, locked);
      hide Claimable, LastSeen;
      leases := ReturningLeases(before, selected);
      traces := SetLeases(traces, selected, Held(owner, now + ttl));
    }

    method LoadTailTrace(lease: TraceLease) returns (spans: seq<Envelope>, ghost order: seq<string>)
      ensures LoadedAs(Snapshot(), lease.id, order, spans)
      ensures |spans| == |BufferedIn(Snapshot(), lease.id)|
      ensures forall k :: k in BufferedIn(Snapshot(), lease.id) ==> buffers[k].envelope in spans
    {
      var s := Snapshot();
      var rows := BufferedIn(s, lease.id);
      var keysInOrder := TakeOldest(rows, ReceivedAt(s), |rows|);
      order, spans := keysInOrder, [];
      for i := 0 to |keysInOrder|
        invariant |spans| == i
        invariant forall j :: 0 <= j < i ==> spans[j] == s.buffers[keysInOrder[j]].envelope
      {
        assert keysInOrder[i] in rows;
        spans := spans + [buffers[keysInOrder[i]].envelope];
      }
      AllTaken(rows, ReceivedAt(s), keysInOrder);
      DistinctCount(keysInOrder);
      assert (set k | k in keysInOrder) == rows;
      forall k | k in rows ensures buffers[k].envelope in spans {
        var i :| 0 <= i < |keysInOrder| && keysInOrder[i] == k;
        assert spans[i] == s.buffers[k].envelope;
      }
    }

    method RecordTailDecision(owner: string, lease: TraceLease, decision: Decision, now: int)
      returns (applied: bool, violation: bool)
      modifies this
      ensures match RecordDecision(old(Snapshot()), owner, lease, decision.reason, decision.retained, now)
              case Applied(t) => applied && !violation && Snapshot() == t
              case Stale => !applied && !violation && Snapshot() == old(Snapshot())
              case UniqueViolation => !applied && violation && Snapshot() == old(Snapshot())
    {
      var before := Snapshot();
      var id := lease.id;
      if id !in traces || !traces[id].lease.Held? || traces[id].lease.owner != owner
         || traces[id].status.Decided? || traces[id].generation != lease.generation {
        return false, false;
      }
      var held := BufferedIn(before, id);
      var spanCount := |held|;
      if decision.retained {
        CopyToOutbox(held, id, now);
      }
      buffers := buffers - held;
      traces := traces[id := traces[id].(status := Decided(decision.reason, now), lease := Free,
                                         spanCount := spanCount)];
      if id in decisions {
        Rollback(before);
        return false, true;
      }
      decisions := decisions[id := DecisionRow(decision.reason, decision.retained, spanCount, now)];
      return true, false;
    }

    method CopyToOutbox(held: set<string>, id: TraceKey, now: int)
      requires held == BufferedIn(Snapshot(), id)
      modifies this`outbox
      ensures outbox == MovedToOutbox(old(Snapshot()), id, now)
    {
      var s := Snapshot();
      var buffered := TakeOldest(held, ReceivedAt(s), |held|);
      AllTaken(held, ReceivedAt(s), buffered);
      outbox := InsertMessages(outbox, buffers, buffered, held, id.tenant, now);
    }

    // ---------- the outbox ----------

    method ClaimTailOutbox(owner: string, ttl: int, limit: int, now: int, locked: set<string>)
      returns (messages: seq<Message>, ghost picked: seq<string>)
      modifies this`outbox
      ensures LegitOutboxClaim(old(Snapshot()), now, limit, locked, picked)
      ensures messages == MessagesFor(old(Snapshot()), picked)
      ensures Snapshot() == ClaimOutbox(old(Snapshot()), picked, owner, now + ttl)
    {
      var before := Snapshot();
      var selected := TakeOldest(Publishable(before, now, locked), CreatedAt(before), if limit < 1 then 1 else limit);
      picked := selected;
      assert forall k :: k in selected ==> k in Publishable(before, now, locked);
      hide Publishable, CreatedAt;
      messages := ReturningMessages(before, selected);
      outbox := SetAttempts(outbox, selected, Held(owner, now + ttl));
    }

    method MarkTailOutboxPublished(owner: string, key: string, now: int) returns (marked: bool)
      modifies this`outbox
      ensures marked == OutboxHeld(old(Snapshot()), owner, key)
      ensures Snapshot() == if marked then MarkPublished(old(Snapshot()), key, now) else old(Snapshot())
    {
      if key !in outbox || outbox[key].publishedAt.Some?
         || !outbox[key].lease.Held? || outbox[key].lease.owner != owner
      {
        return false;
      }
      outbox := outbox[key := outbox[key].(publishedAt := Some(now), lease := Free)];
      return true;
    }

    // ---------- deletion ----------

    method DeleteTailDataBefore(tenant: string, cutoff: int)
      modifies this
      ensures Snapshot() == DeleteBefore(old(Snapshot()), tenant, cutoff)
      ensures OnlyAgedGone(old(Snapshot()), Snapshot(), tenant, cutoff)
    {
      RetentionByRows(Snapshot(), tenant, cutoff);
      hide ExpiredMessages, ExpiredKeys, ExpiredDecisions, ExpiredTraces, Owned;
      outbox := outbox - ExpiredMessages(outbox, tenant, cutoff);
      keys := keys - ExpiredKeys(keys, tenant, cutoff);
      decisions := decisions - ExpiredDecisions(decisions, tenant, cutoff);
      DeleteTraces(ExpiredTraces(traces, tenant, cutoff));
    }

    method DeleteTenantTailData(tenant: string)
      modifies this
      ensures Snapshot() == DeleteTenant(old(Snapshot()), tenant)
      ensures OnlyTenantGone(old(Snapshot()), Snapshot(), tenant)
    {
      TenantDeletionByRows(Snapshot(), tenant);
      hide MessagesOfTenant, KeysOfTenant, DecisionsOfTenant, TracesOfTenant, Owned;
      outbox := outbox - MessagesOfTenant(outbox, tenant);
      keys := keys - KeysOfTenant(keys, tenant);
      decisions := decisions - DecisionsOfTenant(decisions, tenant);
      DeleteTraces(TracesOfTenant(traces, tenant));
    }

    method DeleteTraces(ids: set<TraceKey>)
      modifies this`traces, this`buffers
      ensures traces == old(traces) - ids
      ensures buffers == old(buffers) - Owned(old(buffers), ids)
    {
      hide Owned;
      traces := traces - ids;
      buffers := buffers - Owned(buffers, ids);
    }
  }
}
