// Go walks the map of a batch's traces in any order. When every new trace finds
// room, the order cannot matter exactly when each key that two traces of the
// batch share is repeated within each of them.
module TailOrder {
  import opened Telemetry
  import opened TailTables
  import opened TailInvariants
  import opened TailEffects

  function Home(tenant: string, g: Group): TraceKey {
    TraceKey(tenant, g.trace)
  }

  // What one group would do on its own.
  ghost function Alone(s: Tables, shard: Sharding, now: int, tenant: string, g: Group): Staged {
    StageTrace(s, shard, now, Home(tenant, g), g.envelopes, None)
  }

  // The two states look the same to a group with this home and these keys.
  ghost predicate LooksSame(s: Tables, t: Tables, id: TraceKey, keys: set<string>) {
    && (id in s.traces <==> id in t.traces) && (id in s.traces ==> s.traces[id] == t.traces[id])
    && (forall k :: k in keys ==> (k in s.keys <==> k in t.keys) && (k in s.keys ==> s.keys[k] == t.keys[k]))
    && (forall k :: k in keys ==>
          (k in s.buffers <==> k in t.buffers) && (k in s.buffers ==> s.buffers[k] == t.buffers[k]))
  }

  // From `before` to `after`, nothing changes beyond this home and these keys.
  ghost predicate ChangesOnly(before: Tables, after: Tables, id: TraceKey, keys: set<string>) {
    && after.decisions == before.decisions && after.outbox == before.outbox
    && (forall other :: other != id ==> (other in after.traces <==> other in before.traces))
    && (forall other :: other != id && other in before.traces ==>
          other in after.traces && after.traces[other] == before.traces[other])
    && (forall k :: k !in keys ==>
          (k in after.keys <==> k in before.keys) && (k in after.buffers <==> k in before.buffers))
    && (forall k :: k !in keys && k in before.keys ==> k in after.keys && after.keys[k] == before.keys[k])
    && (forall k :: k !in keys && k in before.buffers ==> k in after.buffers && after.buffers[k] == before.buffers[k])
  }

  ghost predicate SameEffect(a: Staged, b: Staged, before: Tables, id: TraceKey, keys: set<string>, news: set<string>) {
    if a.Accepted? && b.Accepted?
      then LooksSame(a.tables, b.tables, id, keys) && ChangesOnly(before, b.tables, id, news)
    else a.Refused? && b.Refused?
  }

  // ---------- one group ----------

  lemma {:induction false} FreshLooksSame(s: Tables, t: Tables, id: TraceKey, keys: set<string>, es: seq<Envelope>)
    requires LooksSame(s, t, id, keys) && forall e :: e in es ==> e.eventKey in keys
    ensures FreshEnvelopes(s.keys, es) == FreshEnvelopes(t.keys, es)
  {
    if es != [] {
      assert es[0] in es;
      FreshLooksSame(s, t, id, keys, es[1..]);
    }
  }

  lemma InsertableLooksSame(s: Tables, t: Tables, id: TraceKey, keys: set<string>, added: seq<Envelope>)
    requires LooksSame(s, t, id, keys) && forall e :: e in added ==> e.eventKey in keys
    ensures Insertable(s.buffers, added) <==> Insertable(t.buffers, added)
  {
    hide DistinctKeys;
  }

  lemma RegisterLooksSame(s: Tables, t: Tables, now: int, id: TraceKey, keys: set<string>, added: map<string, Envelope>)
    requires LooksSame(s, t, id, keys) && id in s.traces && forall k :: k in added ==> k in keys
    ensures LooksSame(Registered(s, now, id, added), Registered(t, now, id, added), id, keys)
  {
    hide Registered, LooksSame;
    LooksSameRow(s, t, id, keys);
    var v, x := Registered(s, now, id, added), Registered(t, now, id, added);
    forall k | k in keys
      ensures (k in v.keys <==> k in x.keys) && (k in v.keys ==> v.keys[k] == x.keys[k])
      ensures (k in v.buffers <==> k in x.buffers) && (k in v.buffers ==> v.buffers[k] == x.buffers[k])
    {
      LooksSameKey(s, t, id, keys, k);
      RegisteredKey(s, now, id, added, k);
      RegisteredKey(t, now, id, added, k);
    }
    RegisteredRow(s, now, id, added);
    RegisteredRow(t, now, id, added);
    LooksSameAgain(v, x, id, keys);
  }

  lemma RegisteredRow(s: Tables, now: int, id: TraceKey, added: map<string, Envelope>)
    requires id in s.traces
    ensures var t, row := Registered(s, now, id, added), s.traces[id];
            id in t.traces && t.traces[id] == row.(lastSeen := now, generation := row.generation + 1,
                                                   spanCount := row.spanCount + |added|)
  {
  }

  lemma LooksSameKey(s: Tables, t: Tables, id: TraceKey, keys: set<string>, k: string)
    requires LooksSame(s, t, id, keys) && k in keys
    ensures (k in s.keys <==> k in t.keys) && (k in s.keys ==> s.keys[k] == t.keys[k])
    ensures (k in s.buffers <==> k in t.buffers) && (k in s.buffers ==> s.buffers[k] == t.buffers[k])
  {
  }

  lemma LooksSameAgain(s: Tables, t: Tables, id: TraceKey, keys: set<string>)
    requires (id in s.traces <==> id in t.traces) && (id in s.traces ==> s.traces[id] == t.traces[id])
    requires forall k :: k in keys ==> (k in s.keys <==> k in t.keys) && (k in s.keys ==> s.keys[k] == t.keys[k])
    requires forall k :: k in keys ==>
               (k in s.buffers <==> k in t.buffers) && (k in s.buffers ==> s.buffers[k] == t.buffers[k])
    ensures LooksSame(s, t, id, keys)
  {
  }

  lemma RegisteredKey(s: Tables, now: int, id: TraceKey, added: map<string, Envelope>, k: string)
    requires id in s.traces
    ensures var t := Registered(s, now, id, added);
            && (k in t.keys <==> k in s.keys || k in added) && (k in t.buffers <==> k in s.buffers || k in added)
            && (k in t.keys ==> t.keys[k] == if k in added then KeyRow(id, now, added[k]) else s.keys[k])
            && (k in t.buffers ==> t.buffers[k] == if k in added then BufferRow(id, added[k], now) else s.buffers[k])
  {
  }

  lemma RegisterChangesOnly(t: Tables, now: int, id: TraceKey, keys: set<string>, added: map<string, Envelope>)
    requires id in t.traces && forall k :: k in added ==> k in keys
    ensures ChangesOnly(t, Registered(t, now, id, added), id, keys)
  {
    hide WithKeyRows, WithBufferRows;
  }

  lemma AddSpansLooksSame(s: Tables, t: Tables, now: int, id: TraceKey, keys: set<string>, news: set<string>,
                          es: seq<Envelope>)
    requires LooksSame(s, t, id, keys) && id in s.traces && forall e :: e in es ==> e.eventKey in keys
    requires forall e :: e in es && e.eventKey !in s.keys ==> e.eventKey in news
    ensures SameEffect(AddSpans(s, now, id, es), AddSpans(t, now, id, es), t, id, keys, news)
  {
    hide Insertable, Registered, KeysOf, LooksSame;
    LooksSameRow(s, t, id, keys);
    FreshLooksSame(s, t, id, keys, es);
    var added := FreshEnvelopes(s.keys, es);
    FreshEnvelopesAreNew(s.keys, es);
    InsertableLooksSame(s, t, id, keys, added);
    forall k | k in Index(added) ensures k in keys && k in news {
      assert Index(added)[k] in added;
    }
    RegisterLooksSame(s, t, now, id, keys, Index(added));
    RegisterChangesOnly(t, now, id, news, Index(added));
  }

  lemma LooksSameRow(s: Tables, t: Tables, id: TraceKey, keys: set<string>)
    requires LooksSame(s, t, id, keys)
    ensures (id in s.traces <==> id in t.traces) && (id in s.traces ==> s.traces[id] == t.traces[id])
  {
  }

  lemma OpenLooksSame(s: Tables, t: Tables, now: int, id: TraceKey, keys: set<string>)
    requires LooksSame(s, t, id, keys)
    ensures LooksSame(Opened(s, now, id), Opened(t, now, id), id, keys)
    ensures ChangesOnly(t, Opened(t, now, id), id, {})
  {
  }

  lemma ChangesOnlyTwice(s: Tables, t: Tables, v: Tables, id: TraceKey, keys: set<string>)
    requires ChangesOnly(s, t, id, {}) && ChangesOnly(t, v, id, keys)
    ensures ChangesOnly(s, v, id, keys)
  {
  }

  lemma StageLooksSame(s: Tables, t: Tables, shard: Sharding, now: int, id: TraceKey, keys: set<string>,
                       news: set<string>, es: seq<Envelope>, victim: Option<TraceKey>)
    requires LooksSame(s, t, id, keys) && forall e :: e in es ==> e.eventKey in keys
    requires forall e :: e in es && e.eventKey !in s.keys ==> e.eventKey in news
    requires id !in s.traces ==> HasRoom(s, shard, id) && HasRoom(t, shard, id)
    ensures SameEffect(StageTrace(s, shard, now, id, es, None), StageTrace(t, shard, now, id, es, victim), t, id, keys,
                       news)
  {
    hide AddSpans, Opened, HasRoom;
    if id !in s.traces {
      var v, x := Opened(s, now, id), Opened(t, now, id);
      OpenLooksSame(s, t, now, id, keys);
      OpenedIsThere(s, now, id);
      AddSpansLooksSame(v, x, now, id, keys, news, es);
      if AddSpans(x, now, id, es).Accepted? {
        ChangesOnlyTwice(t, x, AddSpans(x, now, id, es).tables, id, news);
      }
    } else if s.traces[id].status.Undecided? {
      AddSpansLooksSame(s, t, now, id, keys, news, es);
    }
  }

  lemma OpenedIsThere(s: Tables, now: int, id: TraceKey)
    ensures id in Opened(s, now, id).traces && Opened(s, now, id).keys == s.keys
  {
  }

  // ---------- several groups ----------

  // The keys of the group that the state does not know.
  function NewKeys(s: Tables, g: Group): set<string> {
    set e | e in g.envelopes && e.eventKey !in s.keys :: e.eventKey
  }

  lemma NewKeysAreNew(s: Tables, g: Group)
    ensures forall k :: k in NewKeys(s, g) <==> k in KeysOf(g.envelopes) && k !in s.keys
    ensures forall e :: e in g.envelopes && e.eventKey !in s.keys ==> e.eventKey in NewKeys(s, g)
  {
  }

  // Two groups share no new key.
  ghost predicate Apart(s: Tables, g: Group, h: Group) {
    g.trace != h.trace && forall k :: k in KeysOf(g.envelopes) && k in KeysOf(h.envelopes) ==> k in s.keys
  }

  ghost predicate Unrelated(s: Tables, groups: seq<Group>) {
    forall i, j :: 0 <= i < |groups| && 0 <= j < |groups| && i != j ==> Apart(s, groups[i], groups[j])
  }

  ghost predicate UntouchedRows(s: Tables, t: Tables, tenant: string, done: seq<Group>) {
    && t.decisions == s.decisions && t.outbox == s.outbox
    && (forall id :: (forall g :: g in done ==> Home(tenant, g) != id) ==>
          (id in s.traces <==> id in t.traces) && (id in s.traces ==> s.traces[id] == t.traces[id]))
    && (forall k :: (forall g :: g in done ==> k !in NewKeys(s, g)) ==>
          && (k in s.keys <==> k in t.keys) && (k in s.keys ==> s.keys[k] == t.keys[k])
          && (k in s.buffers <==> k in t.buffers) && (k in s.buffers ==> s.buffers[k] == t.buffers[k]))
  }

  // `t` is `s` with the rows each group would write on its own.
  ghost predicate Merged(s: Tables, t: Tables, shard: Sharding, now: int, tenant: string, done: seq<Group>) {
    && UntouchedRows(s, t, tenant, done)
    && (forall g :: g in done ==>
          && Alone(s, shard, now, tenant, g).Accepted?
          && LooksSame(Alone(s, shard, now, tenant, g).tables, t, Home(tenant, g), KeysOf(g.envelopes)))
  }

  lemma UntouchedLooksSame(s: Tables, t: Tables, tenant: string, done: seq<Group>, g: Group)
    requires UntouchedRows(s, t, tenant, done)
    requires forall d :: d in done ==> Apart(s, d, g)
    ensures LooksSame(s, t, Home(tenant, g), KeysOf(g.envelopes))
  {
    forall k, d | k in KeysOf(g.envelopes) && d in done ensures k !in NewKeys(s, d) {
      NewKeysAreNew(s, d);
    }
    hide KeysOf, NewKeys;
  }

  lemma UntouchedStep(s: Tables, t: Tables, v: Tables, tenant: string, done: seq<Group>, g: Group)
    requires UntouchedRows(s, t, tenant, done) && ChangesOnly(t, v, Home(tenant, g), NewKeys(s, g))
    ensures UntouchedRows(s, v, tenant, done + [g])
  {
    hide NewKeys;
    var longer := done + [g];
    forall d | d in done ensures d in longer {}
    assert g in longer;
  }

  lemma LooksSameStays(a: Tables, t: Tables, v: Tables, other: TraceKey, otherKeys: set<string>, id: TraceKey,
                       keys: set<string>)
    requires LooksSame(a, t, other, otherKeys) && ChangesOnly(t, v, id, keys)
    requires other != id && forall k :: k in otherKeys ==> k !in keys
    ensures LooksSame(a, v, other, otherKeys)
  {
  }

  lemma MergedStep(s: Tables, t: Tables, v: Tables, shard: Sharding, now: int, tenant: string, done: seq<Group>,
                   g: Group)
    requires Merged(s, t, shard, now, tenant, done)
    requires forall d :: d in done ==> Apart(s, d, g)
    requires Alone(s, shard, now, tenant, g).Accepted?
    requires LooksSame(Alone(s, shard, now, tenant, g).tables, v, Home(tenant, g), KeysOf(g.envelopes))
    requires ChangesOnly(t, v, Home(tenant, g), NewKeys(s, g))
    ensures Merged(s, v, shard, now, tenant, done + [g])
  {
    NewKeysAreNew(s, g);
    hide Alone, LooksSame, ChangesOnly, KeysOf, NewKeys, UntouchedRows;
    UntouchedStep(s, t, v, tenant, done, g);
    forall d | d in done + [g]
      ensures Alone(s, shard, now, tenant, d).Accepted?
      ensures LooksSame(Alone(s, shard, now, tenant, d).tables, v, Home(tenant, d), KeysOf(d.envelopes))
    {
      if d in done {
        LooksSameStays(Alone(s, shard, now, tenant, d).tables, t, v, Home(tenant, d), KeysOf(d.envelopes),
                       Home(tenant, g), NewKeys(s, g));
      }
    }
  }

  // ---------- room ----------

  ghost function Newcomers(s: Tables, shard: Sharding, tenant: string, groups: seq<Group>, n: Shard): set<TraceKey> {
    set g | g in groups && Home(tenant, g) !in s.traces && shard(g.trace) == n :: Home(tenant, g)
  }

  // A shard that gets new traces has room for all of them.
  ghost predicate RoomForAll(s: Tables, shard: Sharding, tenant: string, groups: seq<Group>) {
    forall n: Shard :: Newcomers(s, shard, tenant, groups, n) != {} ==>
      |ActiveInShard(s, shard, tenant, n) + Newcomers(s, shard, tenant, groups, n)| <= SHARD_TRACES
  }

  lemma AddSpansKeepsStatus(s: Tables, now: int, id: TraceKey, es: seq<Envelope>)
    requires id in s.traces && AddSpans(s, now, id, es).Accepted?
    ensures id in AddSpans(s, now, id, es).tables.traces
    ensures AddSpans(s, now, id, es).tables.traces[id].status == s.traces[id].status
  {
    hide Insertable, WithKeyRows, WithBufferRows, KeysOf, Index, FreshEnvelopes;
  }

  lemma AloneKeepsStatus(s: Tables, shard: Sharding, now: int, tenant: string, g: Group)
    requires Home(tenant, g) in s.traces && Alone(s, shard, now, tenant, g).Accepted?
    ensures var t := Alone(s, shard, now, tenant, g).tables;
            Home(tenant, g) in t.traces && t.traces[Home(tenant, g)].status == s.traces[Home(tenant, g)].status
  {
    hide AddSpans;
    if s.traces[Home(tenant, g)].status.Undecided? {
      AddSpansKeepsStatus(s, now, Home(tenant, g), g.envelopes);
    }
  }

  lemma MergedActive(s: Tables, t: Tables, shard: Sharding, now: int, tenant: string, done: seq<Group>, id: TraceKey)
    requires Merged(s, t, shard, now, tenant, done) && Active(t, id)
    ensures Active(s, id) || (id !in s.traces && exists g :: g in done && Home(tenant, g) == id)
  {
    hide Alone, KeysOf;
    if g :| g in done && Home(tenant, g) == id {
      if id in s.traces {
        AloneKeepsStatus(s, shard, now, tenant, g);
      }
    }
  }

  lemma RoomStays(s: Tables, t: Tables, shard: Sharding, now: int, tenant: string, done: seq<Group>, all: seq<Group>,
                  g: Group)
    requires Merged(s, t, shard, now, tenant, done) && RoomForAll(s, shard, tenant, all)
    requires g in all && Home(tenant, g) !in s.traces && (forall d :: d in done ==> d in all && d.trace != g.trace)
    ensures HasRoom(t, shard, Home(tenant, g))
  {
    hide Merged;
    var id, n := Home(tenant, g), shard(g.trace);
    var everyone := ActiveInShard(s, shard, tenant, n) + Newcomers(s, shard, tenant, all, n);
    assert id in Newcomers(s, shard, tenant, all, n);
    forall other | other in ActiveInShard(t, shard, tenant, n) ensures other in everyone - {id} {
      MergedActive(s, t, shard, now, tenant, done, other);
    }
    SubsetIsNoLarger(ActiveInShard(t, shard, tenant, n), everyone - {id});
  }

  // ---------- the order does not matter ----------

  lemma {:induction false} StageGroupsMerges(s: Tables, t: Tables, shard: Sharding, now: int, tenant: string,
                                             done: seq<Group>, rest: seq<Group>, victims: seq<Option<TraceKey>>)
    requires |rest| == |victims| && Unrelated(s, done + rest) && RoomForAll(s, shard, tenant, done + rest)
    requires Merged(s, t, shard, now, tenant, done)
    ensures var r := StageGroups(t, shard, now, tenant, rest, victims);
            && (r.Accepted? <==> forall g :: g in rest ==> Alone(s, shard, now, tenant, g).Accepted?)
            && (r.Accepted? ==> Merged(s, r.tables, shard, now, tenant, done + rest))
    decreases |rest|
  {
    hide Merged, Alone, LooksSame, ChangesOnly, RoomForAll, StageTrace, HasRoom;
    var all := done + rest;
    if rest == [] {
      assert all == done;
    } else {
      var g := rest[0];
      OneOfMany(s, done, rest);
      OneGroupMerges(s, t, shard, now, tenant, done, all, g, victims[0]);
      assert (done + [g]) + rest[1..] == all;
      var r := StageTrace(t, shard, now, Home(tenant, g), g.envelopes, victims[0]);
      if r.Accepted? {
        StageGroupsMerges(s, r.tables, shard, now, tenant, done + [g], rest[1..], victims[1..]);
      }
      assert forall x :: x in rest <==> x == g || x in rest[1..];
    }
  }

  lemma OneOfMany(s: Tables, done: seq<Group>, rest: seq<Group>)
    requires Unrelated(s, done + rest) && rest != []
    ensures rest[0] in done + rest && forall d :: d in done ==> d in done + rest
    ensures forall d :: d in done ==> Apart(s, d, rest[0])
  {
    hide Apart;
    var all := done + rest;
    assert all[|done|] == rest[0];
    forall d | d in done ensures d in all && Apart(s, d, rest[0]) {
      var i :| 0 <= i < |done| && done[i] == d;
      assert all[i] == d;
    }
  }

  lemma OneGroupMerges(s: Tables, t: Tables, shard: Sharding, now: int, tenant: string, done: seq<Group>,
                       all: seq<Group>,
                       g: Group, victim: Option<TraceKey>)
    requires Merged(s, t, shard, now, tenant, done) && RoomForAll(s, shard, tenant, all)
    requires g in all && forall d :: d in done ==> d in all && Apart(s, d, g)
    ensures var r := StageTrace(t, shard, now, Home(tenant, g), g.envelopes, victim);
            && (r.Accepted? <==> Alone(s, shard, now, tenant, g).Accepted?)
            && (r.Accepted? ==> Merged(s, r.tables, shard, now, tenant, done + [g]))
  {
    hide LooksSame, ChangesOnly, RoomForAll, StageTrace, HasRoom, UntouchedRows;
    var id := Home(tenant, g);
    UntouchedLooksSame(s, t, tenant, done, g);
    if id !in s.traces {
      RoomStays(s, s, shard, now, tenant, [], all, g) by { MergedWithNothing(s, shard, now, tenant); }
      RoomStays(s, t, shard, now, tenant, done, all, g);
    }
    NewKeysAreNew(s, g);
    StageLooksSame(s, t, shard, now, id, KeysOf(g.envelopes), NewKeys(s, g), g.envelopes, victim);
    var r := StageTrace(t, shard, now, id, g.envelopes, victim);
    if r.Accepted? {
      MergedStep(s, t, r.tables, shard, now, tenant, done, g);
    }
  }

  lemma MergedWithNothing(s: Tables, shard: Sharding, now: int, tenant: string)
    ensures Merged(s, s, shard, now, tenant, [])
  {
  }

  lemma MergedRow(s: Tables, t: Tables, v: Tables, shard: Sharding, now: int, tenant: string, a: seq<Group>,
                  b: seq<Group>, id: TraceKey)
    requires Merged(s, t, shard, now, tenant, a) && Merged(s, v, shard, now, tenant, b)
    requires forall g :: g in a <==> g in b
    ensures (id in t.traces <==> id in v.traces) && (id in t.traces ==> t.traces[id] == v.traces[id])
  {
    hide Alone, KeysOf;
    if g :| g in a && Home(tenant, g) == id {
      assert g in b;
    }
  }

  lemma MergedKey(s: Tables, t: Tables, v: Tables, shard: Sharding, now: int, tenant: string, a: seq<Group>,
                  b: seq<Group>, k: string)
    requires Merged(s, t, shard, now, tenant, a) && Merged(s, v, shard, now, tenant, b)
    requires forall g :: g in a <==> g in b
    ensures (k in t.keys <==> k in v.keys) && (k in t.keys ==> t.keys[k] == v.keys[k])
    ensures (k in t.buffers <==> k in v.buffers) && (k in t.buffers ==> t.buffers[k] == v.buffers[k])
  {
    hide Alone, KeysOf, NewKeys, LooksSame, UntouchedRows;
    if g :| g in a && k in NewKeys(s, g) {
      assert g in b;
      NewKeysAreNew(s, g);
      LooksSameKey(Alone(s, shard, now, tenant, g).tables, t, Home(tenant, g), KeysOf(g.envelopes), k);
      LooksSameKey(Alone(s, shard, now, tenant, g).tables, v, Home(tenant, g), KeysOf(g.envelopes), k);
    } else {
      UntouchedKey(s, t, tenant, a, k);
      UntouchedKey(s, v, tenant, b, k);
    }
  }

  lemma UntouchedKey(s: Tables, t: Tables, tenant: string, done: seq<Group>, k: string)
    requires UntouchedRows(s, t, tenant, done) && forall g :: g in done ==> k !in NewKeys(s, g)
    ensures (k in s.keys <==> k in t.keys) && (k in s.keys ==> s.keys[k] == t.keys[k])
    ensures (k in s.buffers <==> k in t.buffers) && (k in s.buffers ==> s.buffers[k] == t.buffers[k])
  {
    hide NewKeys;
  }

  lemma MergedRest(s: Tables, t: Tables, shard: Sharding, now: int, tenant: string, done: seq<Group>)
    requires Merged(s, t, shard, now, tenant, done)
    ensures t == Tables(t.traces, t.buffers, t.keys, s.decisions, s.outbox)
  {
    hide Alone, KeysOf, LooksSame;
  }

  lemma SameMap<K, V>(a: map<K, V>, b: map<K, V>)
    requires forall k :: k in a <==> k in b
    requires forall k :: k in a ==> a[k] == b[k]
    ensures a == b
  {
  }

  lemma MergedIsUnique(s: Tables, t: Tables, v: Tables, shard: Sharding, now: int, tenant: string, a: seq<Group>,
                       b: seq<Group>)
    requires Merged(s, t, shard, now, tenant, a) && Merged(s, v, shard, now, tenant, b)
    requires forall g :: g in a <==> g in b
    ensures t == v
  {
    hide *;
    forall id ensures (id in t.traces <==> id in v.traces) && (id in t.traces ==> t.traces[id] == v.traces[id]) {
      MergedRow(s, t, v, shard, now, tenant, a, b, id);
    }
    forall k ensures (k in t.keys <==> k in v.keys) && (k in t.keys ==> t.keys[k] == v.keys[k])
                     && (k in t.buffers <==> k in v.buffers) && (k in t.buffers ==> t.buffers[k] == v.buffers[k])
    {
      MergedKey(s, t, v, shard, now, tenant, a, b, k);
    }
    SameMap(t.traces, v.traces);
    SameMap(t.keys, v.keys);
    SameMap(t.buffers, v.buffers);
    MergedRest(s, t, shard, now, tenant, a);
    MergedRest(s, v, shard, now, tenant, b);
  }

  lemma SameGroups(batch: seq<Envelope>, a: seq<Group>, b: seq<Group>)
    requires Grouping(batch, a) && Grouping(batch, b)
    ensures forall g :: g in a ==> g in b
  {
    hide TracesOf, OfTrace;
    forall g | g in a ensures g in b {
      var i :| 0 <= i < |a| && a[i] == g;
      var j :| 0 <= j < |b| && b[j].trace == g.trace;
      assert b[j] == g;
    }
  }

  // ---------- keys shared by two traces ----------

  function Times(es: seq<Envelope>, k: string): nat {
    if es == [] then 0 else (if es[0].eventKey == k then 1 else 0) + Times(es[1..], k)
  }

  lemma {:induction false} TimesOfKeys(es: seq<Envelope>, k: string)
    ensures k in KeysOf(es) <==> Times(es, k) > 0
  {
    if es != [] {
      TimesOfKeys(es[1..], k);
      assert es == [es[0]] + es[1..];
    }
  }

  lemma {:induction false} RepeatedIsNotDistinct(es: seq<Envelope>, k: string)
    requires DistinctKeys(es)
    ensures Times(es, k) <= 1
  {
    if es != [] {
      RepeatedIsNotDistinct(es[1..], k);
      if es[0].eventKey == k {
        TimesOfKeys(es[1..], k);
      }
    }
  }

  lemma {:induction false} FreshKeepsNewKeys(keys: map<string, KeyRow>, es: seq<Envelope>, k: string)
    requires k !in keys
    ensures Times(FreshEnvelopes(keys, es), k) == Times(es, k)
  {
    if es != [] {
      var rest := FreshEnvelopes(keys, es[1..]);
      FreshKeepsNewKeys(keys, es[1..], k);
      assert ([es[0]] + rest)[1..] == rest && [] + rest == rest;
    }
  }

  ghost predicate Shared(batch: seq<Envelope>, k: string, trace: string, other: string) {
    trace != other && Times(OfTrace(batch, trace), k) > 0 && Times(OfTrace(batch, other), k) > 0
  }

  // Each key shared by two traces of the batch is repeated within each of them.
  ghost predicate SharedKeysRepeat(batch: seq<Envelope>) {
    forall k, trace, other :: Shared(batch, k, trace, other) ==> Times(OfTrace(batch, trace), k) > 1
  }

  // ---------- no shared key is new ----------

  ghost predicate SharedKeysKnown(s: Tables, batch: seq<Envelope>) {
    forall k, trace, other :: Shared(batch, k, trace, other) ==> k in s.keys
  }

  lemma GroupsAreUnrelated(s: Tables, batch: seq<Envelope>, groups: seq<Group>)
    requires Grouping(batch, groups) && SharedKeysKnown(s, batch)
    ensures Unrelated(s, groups)
  {
    hide TracesOf, OfTrace, KeysOf;
    forall i, j | 0 <= i < |groups| && 0 <= j < |groups| && i != j ensures Apart(s, groups[i], groups[j]) {
      assert groups[i].trace != groups[j].trace by {
        if i < j {} else {}
      }
      forall k | k in KeysOf(groups[i].envelopes) && k in KeysOf(groups[j].envelopes) ensures k in s.keys {
        TimesOfKeys(groups[i].envelopes, k);
        TimesOfKeys(groups[j].envelopes, k);
        assert Shared(batch, k, groups[i].trace, groups[j].trace);
      }
    }
  }

  ghost predicate SameResult(a: Staged, b: Staged) {
    if a.Accepted? && b.Accepted? then a.tables == b.tables else a.Refused? && b.Refused?
  }

  lemma KnownSharedKeysAgree(s: Tables, shard: Sharding, now: int, tenant: string, batch: seq<Envelope>,
                             a: seq<Group>, aVictims: seq<Option<TraceKey>>,
                             b: seq<Group>, bVictims: seq<Option<TraceKey>>)
    requires |a| == |aVictims| && |b| == |bVictims| && Grouping(batch, a) && Grouping(batch, b)
    requires SharedKeysKnown(s, batch) && RoomForAll(s, shard, tenant, a)
    ensures SameResult(StageGroups(s, shard, now, tenant, a, aVictims), StageGroups(s, shard, now, tenant, b, bVictims))
  {
    hide Merged, Alone, Grouping, StageGroups, SharedKeysKnown, Unrelated;
    SameGroups(batch, a, b);
    SameGroups(batch, b, a);
    GroupsAreUnrelated(s, batch, a);
    GroupsAreUnrelated(s, batch, b);
    assert RoomForAll(s, shard, tenant, b) by {
      forall n: Shard ensures Newcomers(s, shard, tenant, b, n) == Newcomers(s, shard, tenant, a, n) {}
    }
    MergedWithNothing(s, shard, now, tenant);
    assert [] + a == a && [] + b == b;
    StageGroupsMerges(s, s, shard, now, tenant, [], a, aVictims);
    StageGroupsMerges(s, s, shard, now, tenant, [], b, bVictims);
    var first := StageGroups(s, shard, now, tenant, a, aVictims);
    var second := StageGroups(s, shard, now, tenant, b, bVictims);
    if first.Accepted? && second.Accepted? {
      MergedIsUnique(s, first.tables, second.tables, shard, now, tenant, a, b);
    }
  }

  // ---------- a new key repeated in each of its traces ----------

  lemma AddSpansRegistersOwn(s: Tables, now: int, id: TraceKey, es: seq<Envelope>)
    requires id in s.traces && AddSpans(s, now, id, es).Accepted?
    ensures forall k :: k in AddSpans(s, now, id, es).tables.keys ==> k in s.keys || k in KeysOf(es)
  {
    hide Insertable, WithBufferRows;
    FreshEnvelopesAreNew(s.keys, es);
    var added := FreshEnvelopes(s.keys, es);
    forall k | k in Index(added) ensures k in KeysOf(es) {
      assert Index(added)[k] in added;
    }
  }

  lemma StageRegistersOwn(s: Tables, shard: Sharding, now: int, id: TraceKey, es: seq<Envelope>,
                          victim: Option<TraceKey>)
    requires StageTrace(s, shard, now, id, es, victim).Accepted?
    ensures forall k :: k in StageTrace(s, shard, now, id, es, victim).tables.keys ==> k in s.keys || k in KeysOf(es)
  {
    hide AddSpans, KeysOf, HasRoom;
    if id !in s.traces {
      AddSpansRegistersOwn(Admit(s, shard, now, id, victim).tables, now, id, es);
    } else if s.traces[id].status.Undecided? {
      AddSpansRegistersOwn(s, now, id, es);
    }
  }

  lemma AddSpansRefusesRepeats(s: Tables, now: int, id: TraceKey, es: seq<Envelope>, k: string)
    requires id in s.traces && k !in s.keys && Times(es, k) > 1
    ensures AddSpans(s, now, id, es).Refused?
  {
    var added := FreshEnvelopes(s.keys, es);
    FreshKeepsNewKeys(s.keys, es, k);
    if DistinctKeys(added) {
      RepeatedIsNotDistinct(added, k);
    }
  }

  lemma StageRefusesRepeats(s: Tables, shard: Sharding, now: int, id: TraceKey, es: seq<Envelope>,
                            victim: Option<TraceKey>, k: string)
    requires k !in s.keys && Times(es, k) > 1
    ensures StageTrace(s, shard, now, id, es, victim).Refused?
  {
    hide AddSpans, HasRoom;
    if id !in s.traces {
      if Admit(s, shard, now, id, victim).Accepted? {
        AddSpansRefusesRepeats(Admit(s, shard, now, id, victim).tables, now, id, es, k);
      }
    } else if s.traces[id].status.Decided? {
      TimesOfKeys(es, k);
      var e :| e in es && e.eventKey == k;
      assert !KnownTo(s, id, e.eventKey);
    } else {
      AddSpansRefusesRepeats(s, now, id, es, k);
    }
  }

  // Whatever the order, the first group with the key is refused.
  lemma {:induction false} RepeatedNewKeyRefuses(s: Tables, shard: Sharding, now: int, tenant: string,
                                                 groups: seq<Group>,
                                                 victims: seq<Option<TraceKey>>, k: string)
    requires |groups| == |victims| && k !in s.keys
    requires forall g :: g in groups ==> Times(g.envelopes, k) != 1
    requires exists g :: g in groups && Times(g.envelopes, k) > 1
    ensures StageGroups(s, shard, now, tenant, groups, victims).Refused?
    decreases |groups|
  {
    hide StageTrace, KeysOf;
    var id := TraceKey(tenant, groups[0].trace);
    assert groups[0] in groups;
    if Times(groups[0].envelopes, k) > 1 {
      StageRefusesRepeats(s, shard, now, id, groups[0].envelopes, victims[0], k);
    } else {
      var g :| g in groups && Times(g.envelopes, k) > 1;
      assert g in groups[1..];
      var r := StageTrace(s, shard, now, id, groups[0].envelopes, victims[0]);
      if r.Accepted? {
        StageRegistersOwn(s, shard, now, id, groups[0].envelopes, victims[0]);
        TimesOfKeys(groups[0].envelopes, k);
        RepeatedNewKeyRefuses(r.tables, shard, now, tenant, groups[1..], victims[1..], k);
      }
    }
  }

  lemma SharedGroupsRepeat(batch: seq<Envelope>, groups: seq<Group>, k: string, trace: string, other: string)
    requires Grouping(batch, groups) && SharedKeysRepeat(batch) && Shared(batch, k, trace, other)
    ensures forall g :: g in groups ==> Times(g.envelopes, k) != 1
    ensures exists g :: g in groups && Times(g.envelopes, k) > 1
  {
    forall g | g in groups ensures Times(g.envelopes, k) != 1 {
      var third := if g.trace == trace then other else trace;
      assert Shared(batch, k, third, if third == trace then other else trace);
      if Times(g.envelopes, k) > 0 {
        assert Shared(batch, k, g.trace, third);
      }
    }
    OfTraceMembers(batch, trace);
    TimesOfKeys(OfTrace(batch, trace), k);
    var e :| e in OfTrace(batch, trace) && e.eventKey == k;
    assert trace in TracesOf(batch);
    var i :| 0 <= i < |groups| && groups[i].trace == trace;
    assert groups[i] in groups;
  }

  // ---------- a shared key that is new and not repeated ----------

  // A state that knows every key of the batch but one, and has every trace of it open.
  function OpenTraces(tenant: string, batch: seq<Envelope>): (m: map<TraceKey, TraceRow>)
    ensures forall id :: id in m <==> id.tenant == tenant && id.trace in TracesOf(batch)
    ensures forall id :: id in m ==> m[id] == TraceRow(0, 0, 1, 0, Free, Undecided)
  {
    if batch == [] then map[]
    else
      assert batch == [batch[0]] + batch[1..];
      OpenTraces(tenant, batch[1..])[TraceKey(tenant, TailTraceId(batch[0])) := TraceRow(0, 0, 1, 0, Free, Undecided)]
  }

  function KnownKeys(tenant: string, batch: seq<Envelope>, k: string): (m: map<string, KeyRow>)
    ensures forall x :: x in m <==> x != k && x in KeysOf(batch)
  {
    if batch == [] then map[]
    else
      var rest := KnownKeys(tenant, batch[1..], k);
      var e := batch[0];
      assert batch == [e] + batch[1..];
      if e.eventKey == k then rest else rest[e.eventKey := KeyRow(TraceKey(tenant, TailTraceId(e)), 0, e)]
  }

  function AllButOne(tenant: string, batch: seq<Envelope>, k: string): Tables {
    EMPTY.(traces := OpenTraces(tenant, batch), keys := KnownKeys(tenant, batch, k))
  }

  // Nothing is buffered, every key of the batch but one is known, and whatever
  // trace of the batch is there is open and empty.
  ghost predicate Awaits(s: Tables, tenant: string, batch: seq<Envelope>, k: string) {
    && s.buffers == map[] && k !in s.keys
    && (forall e :: e in batch ==> e.eventKey == k || e.eventKey in s.keys)
    && (forall trace :: trace in TracesOf(batch) ==> EmptyIfThere(s, TraceKey(tenant, trace)))
  }

  predicate EmptyIfThere(s: Tables, id: TraceKey) {
    id in s.traces ==> Active(s, id) && s.traces[id].spanCount == 0
  }

  lemma AwaitedGroups(s: Tables, tenant: string, batch: seq<Envelope>, groups: seq<Group>, k: string)
    requires Grouping(batch, groups) && Awaits(s, tenant, batch, k)
    ensures forall g :: g in groups ==>
              && EmptyIfThere(s, Home(tenant, g))
              && forall e :: e in g.envelopes ==> e.eventKey == k || e.eventKey in s.keys
  {
    hide TailTraceId, EmptyIfThere;
    forall g | g in groups
      ensures EmptyIfThere(s, Home(tenant, g))
      ensures forall e :: e in g.envelopes ==> e.eventKey == k || e.eventKey in s.keys
    {
      var i :| 0 <= i < |groups| && groups[i] == g;
      OfTraceMembers(batch, g.trace);
    }
  }

  lemma AllButOneAwaits(tenant: string, batch: seq<Envelope>, k: string)
    ensures Awaits(AllButOne(tenant, batch, k), tenant, batch, k)
  {
    hide TailTraceId;
  }

  lemma NobodyNew(shard: Sharding, tenant: string, batch: seq<Envelope>, groups: seq<Group>, k: string)
    requires Grouping(batch, groups)
    ensures RoomForAll(AllButOne(tenant, batch, k), shard, tenant, groups)
  {
    hide TailTraceId, OfTrace;
    forall g | g in groups ensures Home(tenant, g) in AllButOne(tenant, batch, k).traces {
      var i :| 0 <= i < |groups| && groups[i] == g;
    }
    hide AllButOne, Grouping;
    forall n: Shard ensures Newcomers(AllButOne(tenant, batch, k), shard, tenant, groups, n) == {} {}
  }

  lemma RoomNow(s: Tables, shard: Sharding, tenant: string, groups: seq<Group>, g: Group)
    requires RoomForAll(s, shard, tenant, groups) && g in groups && Home(tenant, g) !in s.traces
    ensures HasRoom(s, shard, Home(tenant, g))
  {
    MergedWithNothing(s, shard, 0, tenant);
    RoomStays(s, s, shard, 0, tenant, [], groups, g);
  }

  // Groups that bring no new key, to traces that are open or find room, pass.
  lemma KnownGroupPasses(t: Tables, shard: Sharding, now: int, tenant: string, groups: seq<Group>, g: Group)
    requires RoomForAll(t, shard, tenant, groups) && g in groups
    requires Home(tenant, g) in t.traces ==> Active(t, Home(tenant, g))
    requires forall e :: e in g.envelopes ==> e.eventKey in t.keys
    ensures Alone(t, shard, now, tenant, g).Accepted?
  {
    hide HasRoom, RoomForAll;
    KnownIsNotFresh(t.keys, g.envelopes);
    if Home(tenant, g) !in t.traces {
      RoomNow(t, shard, tenant, groups, g);
    }
  }

  lemma KnownGroupsPass(t: Tables, shard: Sharding, now: int, tenant: string, groups: seq<Group>,
                        victims: seq<Option<TraceKey>>)
    requires |groups| == |victims| && RoomForAll(t, shard, tenant, groups)
    requires forall i, j :: 0 <= i < j < |groups| ==> groups[i].trace != groups[j].trace
    requires forall g :: g in groups ==> Home(tenant, g) in t.traces ==> Active(t, Home(tenant, g))
    requires forall g :: g in groups ==> forall e :: e in g.envelopes ==> e.eventKey in t.keys
    ensures var r := StageGroups(t, shard, now, tenant, groups, victims);
            r.Accepted? && r.tables.keys == t.keys
  {
    hide Merged, Alone, StageGroups, RoomForAll, Active;
    KnownAreUnrelated(t, groups);
    MergedWithNothing(t, shard, now, tenant);
    assert [] + groups == groups;
    StageGroupsMerges(t, t, shard, now, tenant, [], groups, victims);
    forall g | g in groups ensures Alone(t, shard, now, tenant, g).Accepted? {
      KnownGroupPasses(t, shard, now, tenant, groups, g);
    }
    KnownGroupsStoreNothing(t, shard, now, tenant, groups, victims);
  }

  lemma KnownAreUnrelated(t: Tables, groups: seq<Group>)
    requires forall i, j :: 0 <= i < j < |groups| ==> groups[i].trace != groups[j].trace
    requires forall g :: g in groups ==> forall e :: e in g.envelopes ==> e.eventKey in t.keys
    ensures Unrelated(t, groups)
  {
    forall i, j | 0 <= i < |groups| && 0 <= j < |groups| && i != j ensures Apart(t, groups[i], groups[j]) {
      assert groups[i] in groups;
      if i < j {} else {}
    }
  }

  ghost predicate SameActivity(s: Tables, t: Tables) {
    && (forall id :: id in t.traces <==> id in s.traces)
    && (forall id :: id in s.traces ==> Active(t, id) == Active(s, id))
  }

  // The one group that brings the new key once gets it.
  lemma SingleNewKeyIsRegistered(s: Tables, now: int, id: TraceKey, es: seq<Envelope>, k: string)
    requires Active(s, id) && s.traces[id].spanCount == 0 && s.buffers == map[]
    requires k !in s.keys && Times(es, k) == 1 && forall e :: e in es ==> e.eventKey == k || e.eventKey in s.keys
    ensures var r := AddSpans(s, now, id, es);
            && r.Accepted? && SameActivity(s, r.tables)
            && (forall x :: x in s.keys ==> x in r.tables.keys)
            && k in r.tables.keys && r.tables.keys[k].home == id
  {
    hide Times, FreshEnvelopes, Index, KeysOf, WithKeyRows, WithBufferRows;
    OneFresh(s.keys, es, k);
  }

  lemma OneFresh(keys: map<string, KeyRow>, es: seq<Envelope>, k: string)
    requires k !in keys && Times(es, k) == 1 && forall e :: e in es ==> e.eventKey == k || e.eventKey in keys
    ensures var added := FreshEnvelopes(keys, es);
            && |added| == 1 && added[0].eventKey == k
            && KeysOf(added) == {k} && Index(added).Keys == {k}
  {
    var added := FreshEnvelopes(keys, es);
    FreshEnvelopesAreNew(keys, es);
    FreshKeepsNewKeys(keys, es, k);
    OnlyKeyTimes(added, k);
    assert added[0] in added;
  }

  lemma {:induction false} OnlyKeyTimes(es: seq<Envelope>, k: string)
    requires forall e :: e in es ==> e.eventKey == k
    ensures |es| == Times(es, k)
  {
    if es != [] {
      OnlyKeyTimes(es[1..], k);
    }
  }

  lemma GroupingStartingWith(batch: seq<Envelope>, trace: string) returns (groups: seq<Group>)
    requires trace in TracesOf(batch)
    ensures Grouping(batch, groups) && groups != [] && groups[0].trace == trace
  {
    groups := [Group(trace, OfTrace(batch, trace))];
    var rest := TracesOf(batch) - {trace};
    ghost var done := {trace};
    hide TracesOf, OfTrace;
    assert groups[0].trace == trace;
    while rest != {}
      invariant groups != [] && groups[0].trace == trace
      invariant forall t :: t in TracesOf(batch) <==> t in rest || t in done
      invariant forall t :: t in done ==> t !in rest && exists i :: 0 <= i < |groups| && groups[i].trace == t
      invariant forall i :: 0 <= i < |groups| ==>
                  groups[i].trace in done && groups[i].envelopes == OfTrace(batch, groups[i].trace)
      invariant forall i, j :: 0 <= i < j < |groups| ==> groups[i].trace != groups[j].trace
      decreases rest
    {
      var next :| next in rest;
      var before := groups;
      groups := groups + [Group(next, OfTrace(batch, next))];
      rest := rest - {next};
      assert groups[|before|].trace == next;
      forall t | t in done ensures exists i :: 0 <= i < |groups| && groups[i].trace == t {
        var i :| 0 <= i < |before| && before[i].trace == t;
        assert groups[i].trace == t;
      }
      done := done + {next};
    }
  }

  function NoVictims(n: nat): (victims: seq<Option<TraceKey>>)
    ensures |victims| == n
  {
    if n == 0 then [] else [None] + NoVictims(n - 1)
  }

  // ---------- the exact condition ----------

  // The store looks at the traces of a batch only if it has one tenant.
  predicate OneTenant(batch: seq<Envelope>) {
    batch != [] && batch[0].tenantId != "" && forall i :: 0 <= i < |batch| ==> batch[i].tenantId == batch[0].tenantId
  }

  // Any two walks of the map end alike, in every state with room.
  ghost predicate OrderIndependent(shard: Sharding, batch: seq<Envelope>) {
    forall s: Tables, now: int, a: seq<Group>, aVictims: seq<Option<TraceKey>>, b: seq<Group>,
          bVictims: seq<Option<TraceKey>> ::
      OrdersIn(s, shard, batch, a, aVictims) && OrdersIn(s, shard, batch, b, bVictims) ==>
        SameResult(StageBatch(s, shard, now, batch, a, aVictims), StageBatch(s, shard, now, batch, b, bVictims))
  }

  ghost predicate OrdersIn(s: Tables, shard: Sharding, batch: seq<Envelope>, groups: seq<Group>,
                           victims: seq<Option<TraceKey>>) {
    && |groups| == |victims| && Grouping(batch, groups)
    && (batch != [] ==> RoomForAll(s, shard, batch[0].tenantId, groups))
  }

  lemma RepeatedOrKnownAgree(s: Tables, shard: Sharding, now: int, batch: seq<Envelope>,
                             a: seq<Group>, aVictims: seq<Option<TraceKey>>,
                             b: seq<Group>, bVictims: seq<Option<TraceKey>>)
    requires OneTenant(batch) ==> SharedKeysRepeat(batch)
    requires OrdersIn(s, shard, batch, a, aVictims) && OrdersIn(s, shard, batch, b, bVictims)
    ensures SameResult(StageBatch(s, shard, now, batch, a, aVictims), StageBatch(s, shard, now, batch, b, bVictims))
  {
    hide StageGroups, Grouping, RoomForAll, Shared, SharedKeysRepeat, Times;
    if OneTenant(batch) {
      var tenant := batch[0].tenantId;
      if SharedKeysKnown(s, batch) {
        KnownSharedKeysAgree(s, shard, now, tenant, batch, a, aVictims, b, bVictims);
      } else {
        var k, trace, other :| Shared(batch, k, trace, other) && k !in s.keys;
        SharedGroupsRepeat(batch, a, k, trace, other);
        SharedGroupsRepeat(batch, b, k, trace, other);
        RepeatedNewKeyRefuses(s, shard, now, tenant, a, aVictims, k);
        RepeatedNewKeyRefuses(s, shard, now, tenant, b, bVictims, k);
      }
    }
  }

  lemma StagesGroups(s: Tables, shard: Sharding, batch: seq<Envelope>, groups: seq<Group>,
                     victims: seq<Option<TraceKey>>)
    requires OneTenant(batch) && |groups| == |victims|
    ensures StageBatch(s, shard, 0, batch, groups, victims)
              == StageGroups(s, shard, 0, batch[0].tenantId, groups, victims)
  {
    hide StageGroups;
  }

  // The state in which the first group is added.
  function Ready(s: Tables, id: TraceKey): Tables {
    if id in s.traces then s else Opened(s, 0, id)
  }

  lemma FirstGroupIsAdded(s: Tables, shard: Sharding, tenant: string, groups: seq<Group>, victim: Option<TraceKey>)
    requires groups != [] && RoomForAll(s, shard, tenant, groups) && EmptyIfThere(s, Home(tenant, groups[0]))
    ensures var id := Home(tenant, groups[0]);
            StageTrace(s, shard, 0, id, groups[0].envelopes, victim)
              == AddSpans(Ready(s, id), 0, id, groups[0].envelopes)
  {
    hide HasRoom, RoomForAll, AddSpans;
    if Home(tenant, groups[0]) !in s.traces {
      RoomNow(s, shard, tenant, groups, groups[0]);
    }
  }

  // `t` is `s` with the first group staged.
  ghost predicate FirstStaged(s: Tables, t: Tables, first: TraceKey) {
    && (forall id :: id in t.traces <==> id in s.traces || id == first)
    && (forall id :: id in t.traces && id != first ==> Active(t, id) == Active(s, id))
    && EmptyIfThere(s, first)
  }

  lemma StillToCome(s: Tables, t: Tables, shard: Sharding, tenant: string, groups: seq<Group>, n: Shard, id: TraceKey)
    requires groups != [] && FirstStaged(s, t, Home(tenant, groups[0]))
    requires id in ActiveInShard(t, shard, tenant, n) || id in Newcomers(t, shard, tenant, groups[1..], n)
    ensures id in ActiveInShard(s, shard, tenant, n) || id in Newcomers(s, shard, tenant, groups, n)
  {
    hide Active;
    assert groups[0] in groups && forall g :: g in groups[1..] ==> g in groups;
  }

  lemma RoomForRest(s: Tables, t: Tables, shard: Sharding, tenant: string, groups: seq<Group>)
    requires groups != [] && RoomForAll(s, shard, tenant, groups) && FirstStaged(s, t, Home(tenant, groups[0]))
    ensures RoomForAll(t, shard, tenant, groups[1..])
  {
    hide Active, ActiveInShard, Newcomers, FirstStaged;
    forall n: Shard | Newcomers(t, shard, tenant, groups[1..], n) != {}
      ensures |ActiveInShard(t, shard, tenant, n) + Newcomers(t, shard, tenant, groups[1..], n)| <= SHARD_TRACES
    {
      SomebodyNew(s, t, shard, tenant, groups, n);
      var later := ActiveInShard(t, shard, tenant, n) + Newcomers(t, shard, tenant, groups[1..], n);
      forall id | id in later
        ensures id in ActiveInShard(s, shard, tenant, n) + Newcomers(s, shard, tenant, groups, n)
      {
        StillToCome(s, t, shard, tenant, groups, n, id);
      }
      SubsetIsNoLarger(later, ActiveInShard(s, shard, tenant, n) + Newcomers(s, shard, tenant, groups, n));
    }
  }

  lemma SomebodyNew(s: Tables, t: Tables, shard: Sharding, tenant: string, groups: seq<Group>, n: Shard)
    requires groups != [] && FirstStaged(s, t, Home(tenant, groups[0]))
    requires Newcomers(t, shard, tenant, groups[1..], n) != {}
    ensures Newcomers(s, shard, tenant, groups, n) != {}
  {
    var id :| id in Newcomers(t, shard, tenant, groups[1..], n);
    assert forall g :: g in groups[1..] ==> g in groups;
    assert id in Newcomers(s, shard, tenant, groups, n);
  }

  lemma ReadyAwaits(s: Tables, id: TraceKey)
    requires EmptyIfThere(s, id)
    ensures var v := Ready(s, id);
            Active(v, id) && v.traces[id].spanCount == 0 && v.buffers == s.buffers && v.keys == s.keys
  {
  }

  lemma ReadyThenSame(s: Tables, t: Tables, id: TraceKey)
    requires EmptyIfThere(s, id) && SameActivity(Ready(s, id), t)
    ensures FirstStaged(s, t, id)
  {
    var v := Ready(s, id);
    forall x | x in t.traces && x != id ensures Active(t, x) == Active(s, x) {
      assert x in v.traces && Active(v, x) == Active(s, x);
    }
  }

  // Staging the first group registers the key to it.
  lemma FirstTraceIsStaged(s: Tables, shard: Sharding, tenant: string, groups: seq<Group>, victim: Option<TraceKey>,
                           k: string)
    requires groups != [] && Times(groups[0].envelopes, k) == 1
    requires s.buffers == map[] && k !in s.keys && EmptyIfThere(s, Home(tenant, groups[0]))
    requires forall e :: e in groups[0].envelopes ==> e.eventKey == k || e.eventKey in s.keys
    requires RoomForAll(s, shard, tenant, groups)
    ensures var id := Home(tenant, groups[0]);
            var r := StageTrace(s, shard, 0, id, groups[0].envelopes, victim);
            && r.Accepted? && FirstStaged(s, r.tables, id)
            && (forall x :: x in s.keys ==> x in r.tables.keys)
            && k in r.tables.keys && r.tables.keys[k].home == id
  {
    hide Times, RoomForAll, AddSpans, Ready, StageTrace, SameActivity, FirstStaged, EmptyIfThere;
    var id := Home(tenant, groups[0]);
    FirstGroupIsAdded(s, shard, tenant, groups, victim);
    ReadyAwaits(s, id);
    SingleNewKeyIsRegistered(Ready(s, id), 0, id, groups[0].envelopes, k);
    ReadyThenSame(s, AddSpans(Ready(s, id), 0, id, groups[0].envelopes).tables, id);
  }

  // The trace that comes first with a single use of the key gets it.
  lemma FirstTraceGetsTheKey(s: Tables, shard: Sharding, tenant: string, batch: seq<Envelope>, groups: seq<Group>,
                             victims: seq<Option<TraceKey>>, k: string)
    requires |groups| == |victims| && Grouping(batch, groups) && groups != [] && Times(groups[0].envelopes, k) == 1
    requires Awaits(s, tenant, batch, k) && RoomForAll(s, shard, tenant, groups)
    ensures var r := StageGroups(s, shard, 0, tenant, groups, victims);
            r.Accepted? && k in r.tables.keys && r.tables.keys[k].home == Home(tenant, groups[0])
  {
    hide Times, RoomForAll, StageTrace, FirstStaged, EmptyIfThere, OfTrace, TracesOf;
    var g, id := groups[0], Home(tenant, groups[0]);
    AwaitedGroups(s, tenant, batch, groups, k);
    DistinctTraces(batch, groups);
    assert s.buffers == map[] && k !in s.keys;
    hide Awaits, Grouping;
    assert g in groups;
    FirstTraceIsStaged(s, shard, tenant, groups, victims[0], k);
    var t := StageTrace(s, shard, 0, id, g.envelopes, victims[0]).tables;
    RoomForRest(s, t, shard, tenant, groups);
    RestIsKnown(s, t, tenant, groups, k);
    KnownGroupsPass(t, shard, 0, tenant, groups[1..], victims[1..]);
  }

  lemma RestIsKnown(s: Tables, t: Tables, tenant: string, groups: seq<Group>, k: string)
    requires groups != [] && FirstStaged(s, t, Home(tenant, groups[0]))
    requires forall i, j :: 0 <= i < j < |groups| ==> groups[i].trace != groups[j].trace
    requires k in t.keys && forall x :: x in s.keys ==> x in t.keys
    requires forall g :: g in groups ==>
               && EmptyIfThere(s, Home(tenant, g))
               && forall e :: e in g.envelopes ==> e.eventKey == k || e.eventKey in s.keys
    ensures forall g :: g in groups[1..] ==> Home(tenant, g) in t.traces ==> Active(t, Home(tenant, g))
    ensures forall g :: g in groups[1..] ==> forall e :: e in g.envelopes ==> e.eventKey in t.keys
  {
    forall g | g in groups[1..]
      ensures Home(tenant, g) in t.traces ==> Active(t, Home(tenant, g))
      ensures forall e :: e in g.envelopes ==> e.eventKey in t.keys
    {
      var i :| 0 <= i < |groups[1..]| && groups[1..][i] == g;
      assert groups[i + 1] == g && g in groups && g.trace != groups[0].trace;
      assert EmptyIfThere(s, Home(tenant, g));
    }
  }

  lemma DistinctTraces(batch: seq<Envelope>, groups: seq<Group>)
    requires Grouping(batch, groups)
    ensures forall i, j :: 0 <= i < j < |groups| ==> groups[i].trace != groups[j].trace
  {
  }

  // Any other trace with the key, walked first, gets it too or is refused.
  lemma SecondTraceDoesNot(s: Tables, shard: Sharding, tenant: string, batch: seq<Envelope>, groups: seq<Group>,
                           victims: seq<Option<TraceKey>>, k: string, trace: string)
    requires |groups| == |victims| && Grouping(batch, groups) && groups != []
    requires groups[0].trace != trace && Times(groups[0].envelopes, k) > 0
    requires Awaits(s, tenant, batch, k) && RoomForAll(s, shard, tenant, groups)
    ensures var r := StageGroups(s, shard, 0, tenant, groups, victims);
            r.Accepted? ==> k in r.tables.keys && r.tables.keys[k].home != TraceKey(tenant, trace)
  {
    if Times(groups[0].envelopes, k) == 1 {
      FirstTraceGetsTheKey(s, shard, tenant, batch, groups, victims, k);
    } else {
      hide StageTrace, Times;
      StageRefusesRepeats(s, shard, 0, Home(tenant, groups[0]), groups[0].envelopes, victims[0], k);
    }
  }

  // Two orders that disagree, in any state that awaits a key of two traces.
  lemma SingleSharedKeyDisagrees(s: Tables, shard: Sharding, batch: seq<Envelope>, k: string, trace: string,
                                 other: string)
    returns (a: seq<Group>, b: seq<Group>)
    requires OneTenant(batch) && Shared(batch, k, trace, other) && Times(OfTrace(batch, trace), k) == 1
    requires Awaits(s, batch[0].tenantId, batch, k)
    requires forall groups :: Grouping(batch, groups) ==> RoomForAll(s, shard, batch[0].tenantId, groups)
    ensures OrdersIn(s, shard, batch, a, NoVictims(|a|)) && OrdersIn(s, shard, batch, b, NoVictims(|b|))
    ensures !SameResult(StageBatch(s, shard, 0, batch, a, NoVictims(|a|)),
                        StageBatch(s, shard, 0, batch, b, NoVictims(|b|)))
  {
    var tenant := batch[0].tenantId;
    SharedTracesArePresent(batch, k, trace, other);
    a := GroupingStartingWith(batch, trace);
    b := GroupingStartingWith(batch, other);
    FirstGroupIs(batch, a);
    FirstGroupIs(batch, b);
    hide Grouping, RoomForAll, StageGroups, StageBatch, OfTrace, Times, Awaits;
    FirstTraceGetsTheKey(s, shard, tenant, batch, a, NoVictims(|a|), k);
    SecondTraceDoesNot(s, shard, tenant, batch, b, NoVictims(|b|), k, trace);
    StagesGroups(s, shard, batch, a, NoVictims(|a|));
    StagesGroups(s, shard, batch, b, NoVictims(|b|));
  }

  lemma FirstGroupIs(batch: seq<Envelope>, groups: seq<Group>)
    requires Grouping(batch, groups) && groups != []
    ensures groups[0].envelopes == OfTrace(batch, groups[0].trace)
  {
  }

  lemma SharedTracesArePresent(batch: seq<Envelope>, k: string, trace: string, other: string)
    requires Shared(batch, k, trace, other)
    ensures trace in TracesOf(batch) && other in TracesOf(batch)
  {
    hide TailTraceId;
    OfTraceMembers(batch, trace);
    OfTraceMembers(batch, other);
    TimesOfKeys(OfTrace(batch, trace), k);
    TimesOfKeys(OfTrace(batch, other), k);
  }

  // The order in which Go walks the traces of a batch never matters if and only
  // if each key that two traces share is repeated within each of them.
  lemma OrderIndependentExactly(shard: Sharding, batch: seq<Envelope>)
    ensures OrderIndependent(shard, batch) <==> (OneTenant(batch) ==> SharedKeysRepeat(batch))
  {
    hide SameResult, StageBatch, Times, Grouping, RoomForAll;
    if OneTenant(batch) ==> SharedKeysRepeat(batch) {
      forall s: Tables, now: int, a: seq<Group>, aVictims: seq<Option<TraceKey>>, b: seq<Group>,
            bVictims: seq<Option<TraceKey>>
        | OrdersIn(s, shard, batch, a, aVictims) && OrdersIn(s, shard, batch, b, bVictims)
        ensures SameResult(StageBatch(s, shard, now, batch, a, aVictims), StageBatch(s, shard, now, batch, b, bVictims))
      {
        RepeatedOrKnownAgree(s, shard, now, batch, a, aVictims, b, bVictims);
      }
    } else {
      var k, trace, other :| Shared(batch, k, trace, other) && Times(OfTrace(batch, trace), k) <= 1;
      var tenant := batch[0].tenantId;
      AllButOneAwaits(tenant, batch, k);
      forall groups | Grouping(batch, groups) ensures RoomForAll(AllButOne(tenant, batch, k), shard, tenant, groups) {
        NobodyNew(shard, tenant, batch, groups, k);
      }
      var a, b := SingleSharedKeyDisagrees(AllButOne(tenant, batch, k), shard, batch, k, trace, other);
    }
  }
}
