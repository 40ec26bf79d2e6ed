// Leasing, deciding, publishing and deleting by cases, in the columns of the
// tables: which rows a transaction takes, what it writes into them, and that it
// leaves every other row alone.
module RowLaws {
  import opened Telemetry
  import opened Sampling
  import opened TailTables

  // ---------- leasing traces ----------

  // Undecided, quiet for long enough, in nobody's lease and in nobody's transaction.
  predicate MayLease(s: Tables, now: int, quiet: int, locked: set<TraceKey>, id: TraceKey) {
    && id in s.traces && s.traces[id].status.Undecided? && s.traces[id].lastSeen + quiet <= now
    && (s.traces[id].lease.Held? ==> s.traces[id].lease.expires < now)
    && id !in locked
  }

  ghost predicate Distinct<T(!new)>(xs: seq<T>) {
    forall i, j :: 0 <= i < j < |xs| ==> xs[i] != xs[j]
  }

  // A claim takes what may be leased, each trace once, at most `limit` of them and
  // at least one; what it leaves behind although it might be leased is left for
  // the limit, and was seen no earlier than anything taken.
  lemma ClaimByCases(s: Tables, now: int, quiet: int, limit: int, locked: set<TraceKey>, ids: seq<TraceKey>)
    ensures LegitClaim(s, now, quiet, limit, locked, ids) <==>
            && (|ids| <= limit || |ids| <= 1)
            && Distinct(ids)
            && (forall id :: id in ids ==> MayLease(s, now, quiet, locked, id))
            && (forall id :: MayLease(s, now, quiet, locked, id) && id !in ids ==>
                  && 1 <= |ids| && limit <= |ids|
                  && forall x :: x in ids ==> x in s.traces && s.traces[x].lastSeen <= s.traces[id].lastSeen)
  {
    var candidates, age := Claimable(s, now, quiet, locked), LastSeen(s);
    assert forall id :: id in candidates <==> MayLease(s, now, quiet, locked, id);
    hide MayLease, Claimable;
    if LegitClaim(s, now, quiet, limit, locked, ids) {
      forall id, x | id in candidates && id !in ids && x in ids ensures age(x) <= age(id) {
        var i :| 0 <= i < |ids| && ids[i] == x;
      }
    }
  }

  lemma LeasedRows(s: Tables, ids: seq<TraceKey>, owner: string, until: int)
    ensures var t := ClaimTraces(s, ids, owner, until);
            && (forall id :: id in t.traces <==> id in s.traces)
            && (forall id :: id in s.traces ==>
                  t.traces[id] == if id in ids then s.traces[id].(lease := Held(owner, until)) else s.traces[id])
            && t.buffers == s.buffers && t.keys == s.keys && t.decisions == s.decisions && t.outbox == s.outbox
  {
    assert forall id :: id in WithLeases(s.traces, ids, Held(owner, until)).Keys <==> id in s.traces.Keys;
  }

  // The rows of the trace, each once, in the order of their receipt.
  lemma LoadByCases(s: Tables, id: TraceKey, order: seq<string>, spans: seq<Envelope>)
    ensures LoadedAs(s, id, order, spans) <==>
            && |order| == |spans| && Distinct(order)
            && (forall k :: k in order <==> k in s.buffers && s.buffers[k].home == id)
            && (forall i, j :: 0 <= i < j < |order| ==>
                  s.buffers[order[i]].receivedAt <= s.buffers[order[j]].receivedAt)
            && (forall i :: 0 <= i < |order| ==> spans[i] == s.buffers[order[i]].envelope)
  {
    var rows, age := BufferedIn(s, id), ReceivedAt(s);
    if LoadedAs(s, id, order, spans) {
      AllTaken(rows, age, order);
      assert forall i :: 0 <= i < |order| ==> order[i] in order;
    } else if Distinct(order) && forall k :: k in order <==> k in rows {
      assert forall i :: 0 <= i < |order| ==> order[i] in order;
      DistinctCount(order);
      assert (set k | k in order) == rows;
    }
  }

  // ---------- deciding ----------

  // The decision is on record twice, the rows leave the buffer, and if the trace is
  // retained each is in the outbox unless its key was there already.
  ghost predicate DecidedRows(s: Tables, t: Tables, id: TraceKey, reason: Reason, retained: bool, now: int) {
    var count := |set k | k in s.buffers && s.buffers[k].home == id|;
    && id in s.traces
    && (forall x :: x in t.traces <==> x in s.traces)
    && (forall x :: x in s.traces && x != id ==> t.traces[x] == s.traces[x])
    && t.traces[id] == TraceRow(s.traces[id].firstSeen, s.traces[id].lastSeen, s.traces[id].generation, count, Free,
                                Decided(reason, now))
    && t.decisions == s.decisions[id := DecisionRow(reason, retained, count, now)]
    && (forall k :: k in t.buffers <==> k in s.buffers && s.buffers[k].home != id)
    && (forall k :: k in t.buffers ==> t.buffers[k] == s.buffers[k])
    && t.keys == s.keys
    && (forall k :: k in t.outbox <==> k in s.outbox || (retained && k in s.buffers && s.buffers[k].home == id))
    && (forall k :: k in t.outbox ==>
          t.outbox[k] == if k in s.outbox then s.outbox[k]
                         else OutboxRow(id.tenant, s.buffers[k].envelope, 0, Free, None, now))
  }

  // A decision applies exactly to an undecided trace that is leased to its owner at
  // the generation of the claim.
  lemma RecordByCases(s: Tables, owner: string, lease: TraceLease, reason: Reason, retained: bool, now: int)
    ensures var r, id := RecordDecision(s, owner, lease, reason, retained, now), lease.id;
            if id in s.traces && s.traces[id].status.Undecided? && s.traces[id].generation == lease.generation
               && s.traces[id].lease.Held? && s.traces[id].lease.owner == owner
            then if id in s.decisions then r == UniqueViolation
                 else r.Applied? && DecidedRows(s, r.tables, id, reason, retained, now)
            else r == Stale
  {
    var id := lease.id;
    assert BufferedIn(s, id) == set k | k in s.buffers && s.buffers[k].home == id;
  }

  // ---------- the outbox ----------

  // Not published yet, in nobody's lease and in nobody's transaction.
  predicate MayTake(s: Tables, now: int, locked: set<string>, k: string) {
    && k in s.outbox && s.outbox[k].publishedAt.None?
    && (s.outbox[k].lease.Held? ==> s.outbox[k].lease.expires < now)
    && k !in locked
  }

  lemma OutboxClaimByCases(s: Tables, now: int, limit: int, locked: set<string>, picked: seq<string>)
    ensures LegitOutboxClaim(s, now, limit, locked, picked) <==>
            && (|picked| <= limit || |picked| <= 1)
            && Distinct(picked)
            && (forall k :: k in picked ==> MayTake(s, now, locked, k))
            && (forall k :: MayTake(s, now, locked, k) && k !in picked ==>
                  && 1 <= |picked| && limit <= |picked|
                  && forall x :: x in picked ==> x in s.outbox && s.outbox[x].createdAt <= s.outbox[k].createdAt)
  {
    var candidates, age := Publishable(s, now, locked), CreatedAt(s);
    assert forall k :: k in candidates <==> MayTake(s, now, locked, k);
    hide MayTake, Publishable;
    if LegitOutboxClaim(s, now, limit, locked, picked) {
      forall k, x | k in candidates && k !in picked && x in picked ensures age(x) <= age(k) {
        var i :| 0 <= i < |picked| && picked[i] == x;
      }
    }
  }

  lemma TakenRows(s: Tables, picked: seq<string>, owner: string, until: int)
    ensures var t := ClaimOutbox(s, picked, owner, until);
            && (forall k :: k in t.outbox <==> k in s.outbox)
            && (forall k :: k in s.outbox ==>
                  t.outbox[k] == if k in picked
                                 then s.outbox[k].(lease := Held(owner, until), attempts := s.outbox[k].attempts + 1)
                                 else s.outbox[k])
            && t.traces == s.traces && t.buffers == s.buffers && t.keys == s.keys && t.decisions == s.decisions
  {
    assert forall k :: k in WithAttempts(s.outbox, picked, Held(owner, until)).Keys <==> k in s.outbox.Keys;
  }

  // Only the unpublished row that the worker took is marked, and only that row changes.
  lemma MarkByCases(s: Tables, owner: string, key: string, now: int)
    ensures OutboxHeld(s, owner, key) <==>
            && key in s.outbox && s.outbox[key].publishedAt == None
            && exists until :: s.outbox[key].lease == Held(owner, until)
    ensures OutboxHeld(s, owner, key) ==>
              MarkPublished(s, key, now)
              == s.(outbox := s.outbox[key := OutboxRow(s.outbox[key].tenant, s.outbox[key].envelope,
                                                        s.outbox[key].attempts, Free, Some(now),
                                                        s.outbox[key].createdAt)])
  {
    if OutboxHeld(s, owner, key) {
      assert s.outbox[key].lease == Held(owner, s.outbox[key].lease.expires);
    }
  }

  // ---------- deletion ----------

  // The traces, keys, decisions and messages of the tenant are gone, and the buffer
  // rows of its traces; everything else is as it was.
  ghost predicate OnlyTenantGone(s: Tables, t: Tables, tenant: string) {
    && (forall id :: id in t.traces <==> id in s.traces && id.tenant != tenant)
    && (forall id :: id in t.traces ==> t.traces[id] == s.traces[id])
    && (forall k :: k in t.buffers <==>
          k in s.buffers && !(s.buffers[k].home.tenant == tenant && s.buffers[k].home in s.traces))
    && (forall k :: k in t.buffers ==> t.buffers[k] == s.buffers[k])
    && (forall k :: k in t.keys <==> k in s.keys && s.keys[k].home.tenant != tenant)
    && (forall k :: k in t.keys ==> t.keys[k] == s.keys[k])
    && (forall id :: id in t.decisions <==> id in s.decisions && id.tenant != tenant)
    && (forall id :: id in t.decisions ==> t.decisions[id] == s.decisions[id])
    && (forall k :: k in t.outbox <==> k in s.outbox && s.outbox[k].tenant != tenant)
    && (forall k :: k in t.outbox ==> t.outbox[k] == s.outbox[k])
  }

  lemma TenantDeletionByRows(s: Tables, tenant: string)
    ensures OnlyTenantGone(s, DeleteTenant(s, tenant), tenant)
  {
  }

  predicate LongDecided(s: Tables, tenant: string, cutoff: int, id: TraceKey) {
    && id in s.traces && id.tenant == tenant
    && s.traces[id].status.Decided? && s.traces[id].status.at < cutoff
  }

  // What has aged beyond the cutoff is gone: decided traces, keys, decisions and
  // published messages of the one tenant; everything else is as it was.
  ghost predicate OnlyAgedGone(s: Tables, t: Tables, tenant: string, cutoff: int) {
    && (forall id :: id in t.traces <==> id in s.traces && !LongDecided(s, tenant, cutoff, id))
    && (forall id :: id in t.traces ==> t.traces[id] == s.traces[id])
    && (forall k :: k in t.buffers <==> k in s.buffers && !LongDecided(s, tenant, cutoff, s.buffers[k].home))
    && (forall k :: k in t.buffers ==> t.buffers[k] == s.buffers[k])
    && (forall k :: k in t.keys <==>
          k in s.keys && !(s.keys[k].home.tenant == tenant && s.keys[k].createdAt < cutoff))
    && (forall k :: k in t.keys ==> t.keys[k] == s.keys[k])
    && (forall id :: id in t.decisions <==>
          id in s.decisions && !(id.tenant == tenant && s.decisions[id].createdAt < cutoff))
    && (forall id :: id in t.decisions ==> t.decisions[id] == s.decisions[id])
    && (forall k :: k in t.outbox <==>
          k in s.outbox
          && !(s.outbox[k].tenant == tenant && s.outbox[k].publishedAt.Some? && s.outbox[k].createdAt < cutoff))
    && (forall k :: k in t.outbox ==> t.outbox[k] == s.outbox[k])
  }

  lemma RetentionByRows(s: Tables, tenant: string, cutoff: int)
    ensures OnlyAgedGone(s, DeleteBefore(s, tenant, cutoff), tenant, cutoff)
  {
  }
}
