// Staging one trace by cases, in the columns of the tables: when it is refused and
// why, which trace makes room, and what each row is afterwards. A batch then
// evicts only from full shards, and the oldest first.
module StagingCases {
  import opened Telemetry
  import opened Sampling
  import opened TailTables
  import opened TailInvariants
  import opened TailLaws

  // The keys of the spans that are not registered yet.
  function NewKeys(keys: map<string, KeyRow>, es: seq<Envelope>): set<string> {
    set e | e in es && e.eventKey !in keys :: e.eventKey
  }

  // A new key that the spans repeat, or that a buffer row holds.
  ghost predicate Clashes(s: Tables, es: seq<Envelope>) {
    || Repeats(s.keys, es)
    || exists e :: e in es && e.eventKey !in s.keys && e.eventKey in s.buffers
  }

  ghost predicate Repeats(keys: map<string, KeyRow>, es: seq<Envelope>) {
    exists i, j :: 0 <= i < j < |es| && es[i].eventKey == es[j].eventKey && es[i].eventKey !in keys
  }

  // The undecided traces of the tenant whose identifiers hash to the same shard.
  function Peers(s: Tables, shard: Sharding, id: TraceKey): set<TraceKey> {
    set x | x in s.traces && s.traces[x].status.Undecided? && x.tenant == id.tenant
            && shard(x.trace) == shard(id.trace)
  }

  lemma PeersAreActive(s: Tables, shard: Sharding, id: TraceKey)
    ensures Peers(s, shard, id) == ActiveInShard(s, shard, id.tenant, shard(id.trace))
    ensures HasRoom(s, shard, id) <==> |Peers(s, shard, id)| < 100
  {
    assert Peers(s, shard, id) == ActiveInShard(s, shard, id.tenant, shard(id.trace));
  }

  // A trace makes room only for a new one in a shard of a hundred, and it is an
  // unlocked one that was first seen no later than any other unlocked one.
  lemma VictimByCases(s: Tables, shard: Sharding, locked: set<TraceKey>, id: TraceKey, victim: Option<TraceKey>)
    ensures LegitVictim(s, shard, locked, id, victim) <==>
            if id in s.traces || |Peers(s, shard, id)| < 100 then victim.None?
            else if victim.None? then Peers(s, shard, id) <= locked
            else
              && victim.value in Peers(s, shard, id) && victim.value !in locked
              && forall x :: x in Peers(s, shard, id) && x !in locked ==>
                   s.traces[victim.value].firstSeen <= s.traces[x].firstSeen
  {
    hide HasRoom, ActiveInShard;
    PeersAreActive(s, shard, id);
    var free := ActiveInShard(s, shard, id.tenant, shard(id.trace)) - locked;
    forall x | x in Peers(s, shard, id) ensures x in free || x in locked {}
  }

  // ---------- the spans of one undecided trace ----------

  lemma NewKeysAreFresh(keys: map<string, KeyRow>, es: seq<Envelope>)
    ensures KeysOf(FreshEnvelopes(keys, es)) == NewKeys(keys, es)
    ensures FreshEnvelopes(keys, es) == [] <==> NewKeys(keys, es) == {}
  {
    FreshEnvelopesAreNew(keys, es);
    var added := FreshEnvelopes(keys, es);
    forall k ensures k in KeysOf(added) <==> k in NewKeys(keys, es) {
      if k in NewKeys(keys, es) {
        var e :| e in es && e.eventKey !in keys && e.eventKey == k;
        assert e in added;
      }
    }
    if added != [] {
      assert added[0].eventKey in KeysOf(added);
    }
  }

  lemma RepeatsByHead(keys: map<string, KeyRow>, es: seq<Envelope>)
    requires es != []
    ensures Repeats(keys, es) <==>
            Repeats(keys, es[1..])
            || (es[0].eventKey !in keys && exists e :: e in es[1..] && e.eventKey == es[0].eventKey)
  {
    if i, j :| 0 <= i < j < |es| && es[i].eventKey == es[j].eventKey && es[i].eventKey !in keys {
      assert es[1..][j - 1] == es[j];
      if i > 0 {
        assert es[1..][i - 1] == es[i];
      }
    }
    if i, j :| 0 <= i < j < |es[1..]| && es[1..][i].eventKey == es[1..][j].eventKey && es[1..][i].eventKey !in keys {
      assert es[i + 1] == es[1..][i] && es[j + 1] == es[1..][j];
    }
    if e :| e in es[1..] && e.eventKey == es[0].eventKey {
      var j :| 0 <= j < |es[1..]| && es[1..][j] == e;
      assert es[j + 1] == e;
    }
  }

  lemma DistinctByHead(es: seq<Envelope>)
    requires es != []
    ensures DistinctKeys(es) <==> DistinctKeys(es[1..]) && forall e :: e in es[1..] ==> e.eventKey != es[0].eventKey
  {
    if DistinctKeys(es) {
      forall i, j | 0 <= i < j < |es[1..]| ensures es[1..][i].eventKey != es[1..][j].eventKey {
        assert es[i + 1].eventKey != es[j + 1].eventKey;
      }
    } else {
      var i, j :| 0 <= i < j < |es| && es[i].eventKey == es[j].eventKey;
      assert es[1..][j - 1] == es[j];
      if i > 0 {
        assert es[1..][i - 1] == es[i];
      }
    }
  }

  lemma {:induction false} FreshRepeats(keys: map<string, KeyRow>, es: seq<Envelope>)
    ensures DistinctKeys(FreshEnvelopes(keys, es)) <==> !Repeats(keys, es)
  {
    hide DistinctKeys, Repeats;
    if es == [] {
      NothingRepeats(keys);
    } else {
      FreshRepeats(keys, es[1..]);
      FreshEnvelopesAreNew(keys, es[1..]);
      RepeatsByHead(keys, es);
      var added, rest := FreshEnvelopes(keys, es), FreshEnvelopes(keys, es[1..]);
      if es[0].eventKey !in keys {
        assert added[0] == es[0] && added[1..] == rest;
        DistinctByHead(added);
        assert (exists e :: e in es[1..] && e.eventKey == es[0].eventKey)
               <==> exists e :: e in rest && e.eventKey == es[0].eventKey;
      } else {
        assert added == rest;
      }
    }
  }

  lemma NothingRepeats(keys: map<string, KeyRow>)
    ensures DistinctKeys([]) && !Repeats(keys, [])
  {
  }

  lemma InsertableExactly(s: Tables, es: seq<Envelope>)
    ensures Insertable(s.buffers, FreshEnvelopes(s.keys, es)) <==> !Clashes(s, es)
  {
    FreshRepeats(s.keys, es);
    FreshEnvelopesAreNew(s.keys, es);
    hide FreshEnvelopes, DistinctKeys;
    assert Clashes(s, es) <==>
           Repeats(s.keys, es) || exists e :: e in es && e.eventKey !in s.keys && e.eventKey in s.buffers;
    assert (exists e :: e in es && e.eventKey !in s.keys && e.eventKey in s.buffers)
           <==> exists e :: e in FreshEnvelopes(s.keys, es) && e.eventKey in s.buffers;
  }

  // The row of the trace and the keys afterwards; `v` is the trace that made room.
  ghost predicate SpansAdded(s: Tables, t: Tables, now: int, id: TraceKey, es: seq<Envelope>) {
    var more := |NewKeys(s.keys, es)|;
    && id in s.traces
    && (forall x :: x in t.traces <==> x in s.traces)
    && (forall x :: x in s.traces && x != id ==> t.traces[x] == s.traces[x])
    && t.traces[id] == (if more == 0 then s.traces[id]
                        else TraceRow(s.traces[id].firstSeen, now, s.traces[id].generation + 1,
                                      s.traces[id].spanCount + more, s.traces[id].lease, s.traces[id].status))
    && (forall k :: k in t.keys <==> k in s.keys || k in NewKeys(s.keys, es))
    && (forall k :: k in t.buffers <==> k in s.buffers || k in NewKeys(s.keys, es))
    && t.decisions == s.decisions && t.outbox == s.outbox
  }

  lemma AddSpansByCases(s: Tables, now: int, id: TraceKey, es: seq<Envelope>)
    requires id in s.traces
    ensures var r, more := AddSpans(s, now, id, es), |NewKeys(s.keys, es)|;
            if more == 0 then r == Accepted(s)
            else if s.traces[id].spanCount + more > 200 then r == Refused(TraceClosed)
            else if Clashes(s, es) then r == Refused(DuplicateKey)
            else r.Accepted? && SpansAdded(s, r.tables, now, id, es)
  {
    hide Insertable, Clashes, FreshEnvelopes, KeysOf, NewKeys, Registered, SpansAdded, Index;
    NewKeysAreFresh(s.keys, es);
    InsertableExactly(s, es);
    RegisteredAdds(s, now, id, es, Index(FreshEnvelopes(s.keys, es)));
  }

  lemma RegisteredAdds(s: Tables, now: int, id: TraceKey, es: seq<Envelope>, added: map<string, Envelope>)
    requires id in s.traces && added.Keys == NewKeys(s.keys, es)
    ensures |added| > 0 ==> SpansAdded(s, Registered(s, now, id, added), now, id, es)
    ensures |NewKeys(s.keys, es)| == 0 <==> NewKeys(s.keys, es) == {}
  {
    hide NewKeys;
    assert |added| == |added.Keys|;
    assert forall k :: k in added <==> k in NewKeys(s.keys, es);
  }

  // ---------- one trace of a batch ----------

  // The trace that makes room: its rows go, and both tables record the eviction.
  ghost predicate MadeRoom(s: Tables, t: Tables, now: int, v: TraceKey) {
    && v in s.traces && s.traces[v].status.Undecided? && v in t.traces
    && t.traces[v] == TraceRow(s.traces[v].firstSeen, s.traces[v].lastSeen, s.traces[v].generation,
                               |BufferedIn(s, v)|, Free, Decided(EvictedPressure, now))
    && v in t.decisions
    && (v !in s.decisions ==> t.decisions[v] == DecisionRow(EvictedPressure, false, |BufferedIn(s, v)|, now))
  }

  function OpenSpans(s: Tables, id: TraceKey): nat {
    if id in s.traces then s.traces[id].spanCount else 0
  }

  // The row the trace has while its spans are added.
  function RowOr(s: Tables, id: TraceKey, now: int): TraceRow {
    if id in s.traces then s.traces[id] else TraceRow(now, now, 1, 0, Free, Undecided)
  }

  ghost predicate StagedTrace(s: Tables, t: Tables, now: int, id: TraceKey, es: seq<Envelope>,
                              victim: Option<TraceKey>) {
    var more, row := |NewKeys(s.keys, es)|, RowOr(s, id, now);
    && (forall x :: x in t.traces <==> x in s.traces || x == id)
    && (forall x :: x in s.traces && x != id && victim != Some(x) ==> t.traces[x] == s.traces[x])
    && t.traces[id] == (if more == 0 then row
                        else TraceRow(row.firstSeen, now, row.generation + 1, row.spanCount + more, row.lease,
                                      Undecided))
    && (victim.Some? ==> MadeRoom(s, t, now, victim.value))
    && (forall k :: k in t.keys <==> k in s.keys || k in NewKeys(s.keys, es))
    && (forall k :: k in t.buffers <==>
          (k in s.buffers && victim != Some(s.buffers[k].home)) || k in NewKeys(s.keys, es))
    && t.outbox == s.outbox
  }

  // Where the rows of the victim are gone already.
  ghost predicate ClashesBut(s: Tables, es: seq<Envelope>, victim: Option<TraceKey>) {
    || Repeats(s.keys, es)
    || exists e :: e in es && e.eventKey !in s.keys && e.eventKey in s.buffers
                   && victim != Some(s.buffers[e.eventKey].home)
  }

  lemma ClosedByCases(s: Tables, shard: Sharding, now: int, id: TraceKey, es: seq<Envelope>, victim: Option<TraceKey>)
    requires id in s.traces && s.traces[id].status.Decided?
    ensures StageTrace(s, shard, now, id, es, victim)
            == if forall e :: e in es ==> e.eventKey in s.keys && s.keys[e.eventKey].home == id
               then Accepted(s) else Refused(TraceClosed)
  {
  }

  lemma OpenByCases(s: Tables, shard: Sharding, now: int, id: TraceKey, es: seq<Envelope>)
    requires id in s.traces && s.traces[id].status.Undecided?
    ensures var r, more := StageTrace(s, shard, now, id, es, None), |NewKeys(s.keys, es)|;
            if more == 0 then r == Accepted(s)
            else if s.traces[id].spanCount + more > 200 then r == Refused(TraceClosed)
            else if ClashesBut(s, es, None) then r == Refused(DuplicateKey)
            else r.Accepted? && StagedTrace(s, r.tables, now, id, es, None)
  {
    hide AddSpans, Clashes, ClashesBut, NewKeys, SpansAdded, StagedTrace;
    AddSpansByCases(s, now, id, es);
    ClashesAlike(s, s, es, None);
    if AddSpans(s, now, id, es).Accepted? {
      AddedIsStaged(s, s, AddSpans(s, now, id, es).tables, now, id, es, None);
    }
  }

  lemma ClashesAlike(s: Tables, open: Tables, es: seq<Envelope>, victim: Option<TraceKey>)
    requires open.keys == s.keys
    requires forall k :: k in open.buffers <==> k in s.buffers && victim != Some(s.buffers[k].home)
    ensures Clashes(open, es) <==> ClashesBut(s, es, victim)
  {
    hide Repeats;
  }

  // `open` holds the row of the trace; where there is a victim, its rows are gone.
  ghost predicate RoomMade(s: Tables, open: Tables, now: int, id: TraceKey, victim: Option<TraceKey>) {
    && (forall x :: x in open.traces <==> x in s.traces || x == id)
    && (forall x :: x in s.traces && x != id && victim != Some(x) ==> open.traces[x] == s.traces[x])
    && open.traces[id] == RowOr(s, id, now) && open.traces[id].status == Undecided
    && (victim.Some? ==> victim.value != id && MadeRoom(s, open, now, victim.value))
    && open.keys == s.keys && open.outbox == s.outbox
    && (forall k :: k in open.buffers <==> k in s.buffers && victim != Some(s.buffers[k].home))
  }

  lemma AddedIsStaged(s: Tables, open: Tables, t: Tables, now: int, id: TraceKey, es: seq<Envelope>,
                      victim: Option<TraceKey>)
    requires RoomMade(s, open, now, id, victim)
    requires SpansAdded(open, t, now, id, es) || (t == open && |NewKeys(s.keys, es)| == 0)
    ensures StagedTrace(s, t, now, id, es, victim)
  {
    hide NewKeys, BufferedIn, RowOr;
    if |NewKeys(s.keys, es)| == 0 {
      assert NewKeys(s.keys, es) == {};
    }
  }

  // The tables in which the spans of a new trace are added.
  lemma RoomFor(s: Tables, now: int, id: TraceKey, victim: Option<TraceKey>)
    requires id !in s.traces && (victim.Some? ==> Active(s, victim.value))
    ensures var room := if victim.Some? then Evict(s, victim.value, EvictedPressure, now) else s;
            RoomMade(s, Opened(room, now, id), now, id, victim)
  {
  }

  lemma NewByCases(s: Tables, shard: Sharding, now: int, id: TraceKey, es: seq<Envelope>, victim: Option<TraceKey>)
    requires id !in s.traces && (victim.Some? ==> victim.value in Peers(s, shard, id))
    requires victim.Some? ==> |Peers(s, shard, id)| >= 100
    ensures var r, more := StageTrace(s, shard, now, id, es, victim), |NewKeys(s.keys, es)|;
            if |Peers(s, shard, id)| >= 100 && victim.None? then r == Refused(BufferFull)
            else if more > 200 then r == Refused(TraceClosed)
            else if more > 0 && ClashesBut(s, es, victim) then r == Refused(DuplicateKey)
            else r.Accepted? && StagedTrace(s, r.tables, now, id, es, victim)
  {
    hide HasRoom, AddSpans, Peers, Clashes, ClashesBut, NewKeys, SpansAdded, StagedTrace, RoomMade, Evict, Opened;
    PeersAreActive(s, shard, id);
    if |Peers(s, shard, id)| < 100 || victim.Some? {
      var room := if victim.Some? then Evict(s, victim.value, EvictedPressure, now) else s;
      var open := Opened(room, now, id);
      RoomFor(s, now, id, victim);
      assert StageTrace(s, shard, now, id, es, victim) == AddSpans(open, now, id, es);
      AddSpansByCases(open, now, id, es);
      RoomParts(s, open, now, id, victim);
      ClashesAlike(s, open, es, victim);
      if AddSpans(open, now, id, es).Accepted? {
        AddedIsStaged(s, open, AddSpans(open, now, id, es).tables, now, id, es, victim);
      }
    }
  }

  lemma RoomParts(s: Tables, open: Tables, now: int, id: TraceKey, victim: Option<TraceKey>)
    requires RoomMade(s, open, now, id, victim)
    ensures open.keys == s.keys && id in open.traces
    ensures id !in s.traces ==> open.traces[id].spanCount == 0
    ensures forall k :: k in open.buffers <==> k in s.buffers && victim != Some(s.buffers[k].home)
  {
  }

  // How staging one trace ends, for the traces that may make room for it: a decided
  // trace takes only keys that are its own already; a new one needs a shard of less
  // than a hundred or an unlocked trace in it; no trace takes more than 200 spans;
  // and no new key may be repeated, nor be in the buffer.
  lemma StageTraceByCases(s: Tables, shard: Sharding, now: int, locked: set<TraceKey>, id: TraceKey,
                          es: seq<Envelope>, victim: Option<TraceKey>)
    requires LegitVictim(s, shard, locked, id, victim)
    ensures var r, more := StageTrace(s, shard, now, id, es, victim), |NewKeys(s.keys, es)|;
            if id in s.traces && s.traces[id].status.Decided? then
              r == if forall e :: e in es ==> e.eventKey in s.keys && s.keys[e.eventKey].home == id
                   then Accepted(s) else Refused(TraceClosed)
            else if id !in s.traces && |Peers(s, shard, id)| >= 100 && Peers(s, shard, id) <= locked then
              r == Refused(BufferFull)
            else if more > 0 && OpenSpans(s, id) + more > 200 then r == Refused(TraceClosed)
            else if more > 0 && ClashesBut(s, es, victim) then r == Refused(DuplicateKey)
            else r.Accepted? && StagedTrace(s, r.tables, now, id, es, victim)
  {
    VictimByCases(s, shard, locked, id, victim);
    hide LegitVictim, Peers, ClashesBut, NewKeys, StageTrace, StagedTrace;
    if id !in s.traces {
      NewByCases(s, shard, now, id, es, victim);
    } else if s.traces[id].status.Decided? {
      ClosedByCases(s, shard, now, id, es, victim);
    } else {
      OpenByCases(s, shard, now, id, es);
      if |NewKeys(s.keys, es)| == 0 {
        SameTables(s, now, id, es);
      }
    }
  }

  lemma StagedByCases(s: Tables, shard: Sharding, now: int, locked: set<TraceKey>, id: TraceKey, es: seq<Envelope>,
                      victim: Option<TraceKey>)
    requires LegitVictim(s, shard, locked, id, victim)
    ensures var r := StageTrace(s, shard, now, id, es, victim);
            && (r.Accepted? ==> StagedTrace(s, r.tables, now, id, es, victim) || r.tables == s)
            && (r.Refused? ==> r.error in {BufferFull, TraceClosed, DuplicateKey})
            && (r == Refused(BufferFull) <==>
                  id !in s.traces && |Peers(s, shard, id)| >= 100 && Peers(s, shard, id) <= locked)
  {
    hide *;
    StageTraceByCases(s, shard, now, locked, id, es, victim);
  }

  lemma SameTables(s: Tables, now: int, id: TraceKey, es: seq<Envelope>)
    requires id in s.traces && s.traces[id].status.Undecided? && |NewKeys(s.keys, es)| == 0
    ensures StagedTrace(s, s, now, id, es, None)
  {
  }

  // ---------- evictions of a batch ----------

  predicate Evicted(s: Tables, t: Tables, v: TraceKey) {
    && v in s.traces && s.traces[v].status.Undecided?
    && v in t.traces && t.traces[v].status.Decided?
  }

  predicate Stays(s: Tables, t: Tables, x: TraceKey) {
    && x in s.traces && s.traces[x].status.Undecided?
    && x in t.traces && t.traces[x].status.Undecided?
  }

  predicate Neighbours(shard: Sharding, v: TraceKey, x: TraceKey) {
    v.tenant == x.tenant && shard(v.trace) == shard(x.trace)
  }

  // Whatever is evicted was first seen no later than what stays in its shard,
  // rows that other transactions hold aside.
  ghost predicate OldestGo(s: Tables, t: Tables, shard: Sharding, held: set<TraceKey>) {
    forall v, x :: Evicted(s, t, v) && Stays(s, t, x) && x !in held && Neighbours(shard, v, x) ==>
                     s.traces[v].firstSeen <= s.traces[x].firstSeen
  }

  // A shard out of which a trace is evicted is full afterwards.
  ghost predicate OnlyFromFull(s: Tables, t: Tables, shard: Sharding) {
    forall v :: |Peers(s, shard, v)| <= |Peers(t, shard, v)| && (Evicted(s, t, v) ==> |Peers(t, shard, v)| >= 100)
  }

  lemma OldestTwice(s: Tables, t: Tables, u: Tables, shard: Sharding, held: set<TraceKey>, now: int)
    requires OldestGo(s, t, shard, held) && OldestGo(t, u, shard, held)
    requires TraceTimes(s, t, now) && TraceTimes(t, u, now)
    ensures OldestGo(s, u, shard, held)
  {
    forall v, x | Evicted(s, u, v) && Stays(s, u, x) && x !in held && Neighbours(shard, v, x)
      ensures s.traces[v].firstSeen <= s.traces[x].firstSeen
    {
      assert Stays(s, t, x) && Stays(t, u, x);
      assert Evicted(s, t, v) || Evicted(t, u, v);
    }
  }

  lemma FullTwice(s: Tables, t: Tables, u: Tables, shard: Sharding, now: int)
    requires OnlyFromFull(s, t, shard) && OnlyFromFull(t, u, shard) && TraceTimes(s, t, now)
    ensures OnlyFromFull(s, u, shard)
  {
    hide Peers;
    forall v
      ensures |Peers(s, shard, v)| <= |Peers(u, shard, v)| && (Evicted(s, u, v) ==> |Peers(u, shard, v)| >= 100)
    {
      assert |Peers(s, shard, v)| <= |Peers(t, shard, v)| <= |Peers(u, shard, v)|;
      assert Evicted(s, u, v) ==> Evicted(s, t, v) || Evicted(t, u, v);
    }
  }

  lemma NoneEvicted(s: Tables, shard: Sharding, held: set<TraceKey>)
    ensures OldestGo(s, s, shard, held) && OnlyFromFull(s, s, shard)
  {
  }

  lemma StagedPeers(s: Tables, t: Tables, shard: Sharding, now: int, id: TraceKey, es: seq<Envelope>,
                    victim: Option<TraceKey>, v: TraceKey)
    requires StagedTrace(s, t, now, id, es, victim)
    requires id in s.traces ==> s.traces[id].status.Undecided?
    requires victim.Some? ==> id !in s.traces && victim.value in Peers(s, shard, id) && |Peers(s, shard, id)| >= 100
    ensures |Peers(s, shard, v)| <= |Peers(t, shard, v)| && (Evicted(s, t, v) ==> |Peers(t, shard, v)| >= 100)
  {
    hide NewKeys, BufferedIn;
    var before, after := Peers(s, shard, v), Peers(t, shard, v);
    if victim.Some? && v.tenant == id.tenant && shard(v.trace) == shard(id.trace) {
      assert before == Peers(s, shard, id);
      assert after == before - {victim.value} + {id};
    } else {
      SubsetIsNoLarger(before, after);
    }
  }

  lemma TraceEvicts(s: Tables, shard: Sharding, now: int, locked: set<TraceKey>, id: TraceKey, es: seq<Envelope>,
                    victim: Option<TraceKey>, held: set<TraceKey>)
    requires LegitVictim(s, shard, locked, id, victim) && locked <= held
    requires StageTrace(s, shard, now, id, es, victim).Accepted?
    ensures OldestGo(s, StageTrace(s, shard, now, id, es, victim).tables, shard, held)
    ensures OnlyFromFull(s, StageTrace(s, shard, now, id, es, victim).tables, shard)
  {
    hide LegitVictim, StageTrace, Peers, NewKeys, ClashesBut, StagedTrace;
    StageTraceByCases(s, shard, now, locked, id, es, victim);
    VictimByCases(s, shard, locked, id, victim);
    var t := StageTrace(s, shard, now, id, es, victim).tables;
    if id in s.traces && s.traces[id].status.Decided? {
      NoneEvicted(s, shard, held);
    } else {
      forall v
        ensures |Peers(s, shard, v)| <= |Peers(t, shard, v)| && (Evicted(s, t, v) ==> |Peers(t, shard, v)| >= 100)
      {
        StagedPeers(s, t, shard, now, id, es, victim, v);
      }
      StagedOldest(s, t, shard, now, locked, id, es, victim, held);
    }
  }

  lemma StagedOldest(s: Tables, t: Tables, shard: Sharding, now: int, locked: set<TraceKey>, id: TraceKey,
                     es: seq<Envelope>, victim: Option<TraceKey>, held: set<TraceKey>)
    requires StagedTrace(s, t, now, id, es, victim) && LegitVictim(s, shard, locked, id, victim) && locked <= held
    requires id in s.traces ==> s.traces[id].status.Undecided?
    ensures OldestGo(s, t, shard, held)
  {
    hide NewKeys, BufferedIn, LegitVictim;
    VictimByCases(s, shard, locked, id, victim);
    forall v, x | Evicted(s, t, v) && Stays(s, t, x) && x !in held && Neighbours(shard, v, x)
      ensures s.traces[v].firstSeen <= s.traces[x].firstSeen
    {
      assert victim == Some(v) && x in Peers(s, shard, id);
    }
  }

  lemma {:induction false} GroupsEvict(s: Tables, shard: Sharding, now: int, locks: Locks, tenant: string,
                                       groups: seq<Group>, victims: seq<Option<TraceKey>>, batch: seq<Envelope>,
                                       held: set<TraceKey>)
    requires |groups| == |victims| && LegitVictims(s, shard, now, locks, tenant, groups, victims)
    requires forall g :: g in groups ==>
               forall e :: e in g.envelopes ==> Belongs(e.eventKey, TraceKey(tenant, g.trace), e, tenant, batch)
    requires forall g :: g in groups ==> locks(g.trace) <= held
    requires StageGroups(s, shard, now, tenant, groups, victims).Accepted?
    ensures var t := StageGroups(s, shard, now, tenant, groups, victims).tables;
            OldestGo(s, t, shard, held) && OnlyFromFull(s, t, shard)
    decreases |groups|
  {
    hide StageTrace, LegitVictim, StagedRows, Belongs, OldestGo, OnlyFromFull;
    if groups == [] {
      NoneEvicted(s, shard, held);
    } else {
      var id := TraceKey(tenant, groups[0].trace);
      var t := StageTrace(s, shard, now, id, groups[0].envelopes, victims[0]).tables;
      var u := StageGroups(s, shard, now, tenant, groups, victims).tables;
      TraceEvicts(s, shard, now, locks(groups[0].trace), id, groups[0].envelopes, victims[0], held);
      VictimIsOther(s, shard, locks(groups[0].trace), id, victims[0]);
      StageTraceRows(s, shard, now, id, groups[0].envelopes, victims[0], batch);
      StageGroupsRows(t, shard, now, locks, tenant, groups[1..], victims[1..], batch);
      GroupsEvict(t, shard, now, locks, tenant, groups[1..], victims[1..], batch, held);
      StagedTimes(s, t, now, tenant, batch);
      StagedTimes(t, u, now, tenant, batch);
      OldestTwice(s, t, u, shard, held, now);
      FullTwice(s, t, u, shard, now);
    }
  }

  lemma StagedTimes(s: Tables, t: Tables, now: int, tenant: string, batch: seq<Envelope>)
    requires StagedRows(s, t, now, tenant, batch)
    ensures TraceTimes(s, t, now)
  {
  }

  // The rows that other transactions hold while some trace of the batch is staged.
  function HeldRows(locks: Locks, batch: seq<Envelope>): set<TraceKey> {
    set e, x | e in batch && x in locks(TailTraceId(e)) :: x
  }

  // An accepted batch evicts a trace only out of a shard that it leaves full, and
  // the oldest unlocked ones first, whatever the order of its traces.
  lemma StageBatchEvictsOldest(s: Tables, shard: Sharding, now: int, locks: Locks, batch: seq<Envelope>,
                               groups: seq<Group>, victims: seq<Option<TraceKey>>)
    requires |groups| == |victims| && Grouping(batch, groups) && batch != []
    requires LegitVictims(s, shard, now, locks, batch[0].tenantId, groups, victims)
    requires StageBatch(s, shard, now, batch, groups, victims).Accepted?
    ensures var t := StageBatch(s, shard, now, batch, groups, victims).tables;
            OldestGo(s, t, shard, HeldRows(locks, batch)) && OnlyFromFull(s, t, shard)
  {
    hide OldestGo, OnlyFromFull, StageGroups, LegitVictims, Belongs;
    var tenant, held := batch[0].tenantId, HeldRows(locks, batch);
    forall g | g in groups
      ensures locks(g.trace) <= held
      ensures forall e :: e in g.envelopes ==> Belongs(e.eventKey, TraceKey(tenant, g.trace), e, tenant, batch)
    {
      var i :| 0 <= i < |groups| && groups[i] == g;
      GroupBelongs(batch, tenant, g);
      var e :| e in batch && TailTraceId(e) == g.trace;
    }
    GroupsEvict(s, shard, now, locks, tenant, groups, victims, batch, held);
  }
}
