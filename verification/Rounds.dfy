// What one round of a tail worker may do to the tables and the log, in terms of its
// settings and of the clock at its claims (internal/tail/runner.go).
module Rounds {
  import opened Telemetry
  import opened Sampling
  import opened TailTables
  import opened RowLaws
  import opened Broker

  // ---------- what publishing leaves behind ----------

  ghost predicate OnlyMarked(before: map<string, OutboxRow>, after: map<string, OutboxRow>, key: string) {
    && (forall k :: k in after <==> k in before)
    && (forall k :: k in before && k != key ==> after[k] == before[k])
    && key in after && after[key].publishedAt.Some?
  }

  ghost predicate PrefixMarked(before: map<string, OutboxRow>, after: map<string, OutboxRow>, done: seq<Message>) {
    && (forall k :: k in after <==> k in before)
    && (forall m :: m in done ==> m.key in after && after[m.key].publishedAt.Some?)
    && (forall k :: k in before && (forall m :: m in done ==> m.key != k) ==> after[k] == before[k])
  }

  ghost predicate Appended(before: seq<Record>, after: seq<Record>, done: seq<Message>) {
    && |after| == |before| + |done| && after[..|before|] == before
    && (forall i :: 0 <= i < |done| ==> after[|before| + i].payload == Decoded(done[i].envelope))
  }

  lemma MarkedOnly(s: Tables, key: string, now: int)
    requires key in s.outbox
    ensures OnlyMarked(s.outbox, MarkPublished(s, key, now).outbox, key)
  {
  }

  lemma NothingSent(log: seq<Record>, outbox: map<string, OutboxRow>)
    ensures Appended(log, log, []) && PrefixMarked(outbox, outbox, [])
  {
  }

  lemma OneMoreSent(partitionOf: Partitioning, before: seq<Record>, mid: seq<Record>, after: seq<Record>,
                    done: seq<Message>, m: Message)
    requires Appended(before, mid, done)
    requires after == mid + [Sent(partitionOf, m.envelope)]
    ensures Appended(before, after, done + [m])
  {
  }

  lemma OneMoreMarked(before: map<string, OutboxRow>, mid: map<string, OutboxRow>, after: map<string, OutboxRow>,
                      done: seq<Message>, m: Message)
    requires PrefixMarked(before, mid, done) && OnlyMarked(mid, after, m.key)
    ensures PrefixMarked(before, after, done + [m])
  {
    var longer := done + [m];
    forall x | x in longer ensures x in done || x == m {}
    forall x | x in done ensures x in longer {}
    assert m in longer;
  }

  // ---------- what a round may touch ----------

  // Deciding some of the leased traces: rows are closed, and messages inserted.
  ghost predicate DecidedAmong(s: Tables, t: Tables, ids: set<TraceKey>) {
    && (forall id :: id in t.traces <==> id in s.traces)
    && (forall id :: id in s.traces && t.traces[id] != s.traces[id] ==>
          id in ids && s.traces[id].status.Undecided? && t.traces[id].status.Decided?)
    && OnlyAdded(s.outbox, t.outbox)
  }

  ghost predicate OnlyAdded(before: map<string, OutboxRow>, after: map<string, OutboxRow>) {
    && (forall k :: k in before ==> k in after && after[k] == before[k])
    && (forall k :: k in after && k !in before ==> after[k].lease == Free && after[k].publishedAt == None)
  }

  lemma NoneDecided(s: Tables, ids: set<TraceKey>)
    ensures DecidedAmong(s, s, ids)
  {
  }

  lemma RecordedAmong(s: Tables, owner: string, lease: TraceLease, reason: Reason, retained: bool, now: int,
                      ids: set<TraceKey>)
    requires lease.id in ids
    ensures var r := RecordDecision(s, owner, lease, reason, retained, now);
            r.Applied? ==> DecidedAmong(s, r.tables, ids)
  {
    hide RecordDecision;
    RecordByCases(s, owner, lease, reason, retained, now);
  }

  lemma DecidedTwice(s: Tables, t: Tables, v: Tables, last: set<TraceKey>, ids: set<TraceKey>)
    requires DecidedAmong(s, t, ids) && DecidedAmong(t, v, last) && last <= ids
    ensures DecidedAmong(s, v, ids)
  {
  }

  function LeasedIds(leases: seq<TraceLease>): set<TraceKey> {
    set lease | lease in leases :: lease.id
  }

  // Between two states of the traces: what changed was undecided, quiet since the
  // clock of the claim and in nobody's lease; it is decided now or leased from that
  // clock on; and there are no more than `limit` of them.
  ghost predicate FairRound(before: map<TraceKey, TraceRow>, after: map<TraceKey, TraceRow>, now: int, owner: string,
                            quiet: int, ttl: int, limit: int) {
    && (forall id :: id in after <==> id in before)
    && (forall id :: id in before && after[id] != before[id] ==>
          && before[id].status.Undecided? && before[id].lastSeen + quiet <= now
          && (before[id].lease.Held? ==> before[id].lease.expires < now)
          && (after[id].status.Undecided? ==> after[id] == before[id].(lease := Held(owner, now + ttl))))
    && |set id | id in before && id in after && after[id] != before[id]| <= limit
  }

  // Nothing that could be claimed is left as it was, but for the limit.
  ghost predicate FullRound(before: map<TraceKey, TraceRow>, after: map<TraceKey, TraceRow>, now: int, quiet: int,
                            limit: int) {
    forall id :: id in before && id in after && before[id].status.Undecided? && before[id].lastSeen + quiet <= now
                 && (before[id].lease.Held? ==> before[id].lease.expires < now) && after[id] == before[id] ==>
                   |set x | x in before && x in after && after[x] != before[x]| >= limit
  }

  lemma ClaimedAndDecided(s: Tables, t: Tables, now: int, owner: string, quiet: int, ttl: int, limit: int,
                          locked: set<TraceKey>, ids: seq<TraceKey>, among: set<TraceKey>)
    requires LegitClaim(s, now, quiet, limit, locked, ids) && limit >= 1
    requires DecidedAmong(ClaimTraces(s, ids, owner, now + ttl), t, among)
    requires forall id :: id in among <==> id in ids
    ensures FairRound(s.traces, t.traces, now, owner, quiet, ttl, limit) && OnlyAdded(s.outbox, t.outbox)
    ensures locked == {} && ttl > 0 ==> FullRound(s.traces, t.traces, now, quiet, limit)
  {
    hide LegitClaim, ClaimTraces;
    ClaimByCases(s, now, quiet, limit, locked, ids);
    LeasedRows(s, ids, owner, now + ttl);
    var changed := set id | id in s.traces && id in t.traces && t.traces[id] != s.traces[id];
    var claimed := set id | id in ids;
    assert changed <= claimed;
    SubsetIsNoLarger(changed, claimed);
    DistinctCount(ids);
    if ttl > 0 {
      ClaimedChange(s, t, now, owner, quiet, ttl, limit, locked, ids, among);
      SubsetIsNoLarger(claimed, changed);
    }
  }

  lemma ClaimedChange(s: Tables, t: Tables, now: int, owner: string, quiet: int, ttl: int, limit: int,
                      locked: set<TraceKey>, ids: seq<TraceKey>, among: set<TraceKey>)
    requires LegitClaim(s, now, quiet, limit, locked, ids) && ttl > 0
    requires DecidedAmong(ClaimTraces(s, ids, owner, now + ttl), t, among)
    ensures forall id :: id in ids ==> id in s.traces && id in t.traces && t.traces[id] != s.traces[id]
  {
    hide LegitClaim, ClaimTraces;
    ClaimByCases(s, now, quiet, limit, locked, ids);
    LeasedRows(s, ids, owner, now + ttl);
  }

  lemma LeasedIdsAre(s: Tables, ids: seq<TraceKey>)
    requires forall id :: id in ids ==> id in s.traces
    ensures forall id :: id in LeasedIds(LeasesFor(s, ids)) <==> id in ids
  {
    var leases := LeasesFor(s, ids);
    forall id | id in ids ensures id in LeasedIds(leases) {
      var i :| 0 <= i < |ids| && ids[i] == id;
      assert leases[i] in leases && leases[i].id == id;
    }
  }

  // The row could be taken: unpublished, and in nobody's lease.
  predicate Takeable(row: OutboxRow, now: int) {
    row.publishedAt.None? && (row.lease.Held? ==> row.lease.expires < now)
  }

  // The record carries the envelope of such a row.
  ghost predicate IsOf(outbox: map<string, OutboxRow>, now: int, r: Record) {
    exists k :: k in outbox && Takeable(outbox[k], now) && r.payload == Decoded(outbox[k].envelope)
  }

  // Between two states of the outbox: what changed could be taken at the clock of
  // the claim, and is leased from then on with one more attempt, or published; there
  // are no more than `limit` of them, and all that was sent is of such rows.
  ghost predicate FairSending(before: map<string, OutboxRow>, after: map<string, OutboxRow>, sent: seq<Record>,
                              now: int, owner: string, ttl: int, limit: int) {
    && (forall k :: k in after <==> k in before)
    && (forall k :: k in before && after[k] != before[k] ==>
          && Takeable(before[k], now)
          && (after[k].publishedAt.None? ==>
                after[k] == before[k].(lease := Held(owner, now + ttl), attempts := before[k].attempts + 1)))
    && |set k | k in before && k in after && after[k] != before[k]| <= limit
    && |sent| <= limit
    && (forall r :: r in sent ==> IsOf(before, now, r))
  }

  // All that was taken is published, and nothing that could be is left but for the limit.
  ghost predicate FullSending(before: map<string, OutboxRow>, after: map<string, OutboxRow>, now: int, limit: int) {
    && (forall k :: k in before && k in after && after[k] != before[k] ==> after[k].publishedAt.Some?)
    && (forall k :: k in before && k in after && Takeable(before[k], now) && after[k] == before[k] ==>
          |set x | x in before && x in after && after[x] != before[x]| >= limit)
  }

  predicate Mentions(messages: seq<Message>, k: string) {
    exists m :: m in messages && m.key == k
  }

  // The messages are those of rows that could be taken, and the outbox has them leased.
  ghost predicate FairTaking(before: map<string, OutboxRow>, taken: map<string, OutboxRow>, messages: seq<Message>,
                             now: int, owner: string, ttl: int, limit: int) {
    && (forall k :: k in taken <==> k in before)
    && (forall k :: k in before ==>
          taken[k] == if Mentions(messages, k)
                      then before[k].(lease := Held(owner, now + ttl), attempts := before[k].attempts + 1)
                      else before[k])
    && (forall m :: m in messages ==>
          m.key in before && Takeable(before[m.key], now) && m.envelope == before[m.key].envelope)
    && |messages| <= limit
  }

  // Each key once, and whatever could be taken besides is left for the limit.
  ghost predicate FullTaking(before: map<string, OutboxRow>, messages: seq<Message>, now: int, limit: int) {
    && (forall i, j :: 0 <= i < j < |messages| ==> messages[i].key != messages[j].key)
    && (forall k :: k in before && Takeable(before[k], now) && !Mentions(messages, k) ==> |messages| >= limit)
  }

  lemma MessagesMention(s: Tables, picked: seq<string>)
    requires forall k :: k in picked ==> k in s.outbox
    ensures forall k :: Mentions(MessagesFor(s, picked), k) <==> k in picked
    ensures forall m :: m in MessagesFor(s, picked) ==> m.key in picked && m.envelope == s.outbox[m.key].envelope
  {
    var messages := MessagesFor(s, picked);
    forall k | k in picked ensures Mentions(messages, k) {
      var i :| 0 <= i < |picked| && picked[i] == k;
      assert messages[i] in messages && messages[i].key == k;
    }
    forall m | m in messages ensures m.key in picked && m.envelope == s.outbox[m.key].envelope {
      var i :| 0 <= i < |messages| && messages[i] == m;
      assert m.key == picked[i];
    }
  }

  lemma TakingIsFair(s: Tables, now: int, owner: string, ttl: int, limit: int, locked: set<string>, picked: seq<string>)
    requires LegitOutboxClaim(s, now, limit, locked, picked) && limit >= 1
    requires forall k :: k in picked ==> k in s.outbox
    ensures FairTaking(s.outbox, ClaimOutbox(s, picked, owner, now + ttl).outbox, MessagesFor(s, picked), now, owner,
                       ttl, limit)
  {
    hide LegitOutboxClaim, ClaimOutbox, Mentions, MessagesFor, Takeable;
    TakenRows(s, picked, owner, now + ttl);
    MessagesMention(s, picked);
    PickedAreTakeable(s, now, limit, locked, picked);
  }

  lemma PickedAreTakeable(s: Tables, now: int, limit: int, locked: set<string>, picked: seq<string>)
    requires LegitOutboxClaim(s, now, limit, locked, picked) && limit >= 1
    ensures |picked| <= limit && forall k :: k in picked ==> k in s.outbox && Takeable(s.outbox[k], now)
  {
    hide LegitOutboxClaim, Distinct;
    OutboxClaimByCases(s, now, limit, locked, picked);
  }

  lemma TakingIsFull(s: Tables, now: int, limit: int, picked: seq<string>)
    requires LegitOutboxClaim(s, now, limit, {}, picked)
    requires forall k :: k in picked ==> k in s.outbox
    ensures FullTaking(s.outbox, MessagesFor(s, picked), now, limit)
  {
    hide LegitOutboxClaim, Mentions;
    OutboxClaimByCases(s, now, limit, {}, picked);
    MessagesMention(s, picked);
    forall k | k in s.outbox && Takeable(s.outbox[k], now) ensures MayTake(s, now, {}, k) {}
  }

  lemma SendingIsFull(before: map<string, OutboxRow>, taken: map<string, OutboxRow>, after: map<string, OutboxRow>,
                      messages: seq<Message>, now: int, owner: string, ttl: int, limit: int)
    requires FairTaking(before, taken, messages, now, owner, ttl, limit) && FullTaking(before, messages, now, limit)
    requires PrefixMarked(taken, after, messages)
    ensures FullSending(before, after, now, limit)
  {
    var changed := set x | x in before && x in after && after[x] != before[x];
    assert messages[..|messages|] == messages;
    ChangedAreTaken(before, taken, after, messages, |messages|, now, owner, ttl, limit);
    forall m | m in messages ensures m.key in changed {
      assert after[m.key].publishedAt.Some?;
    }
    ChangedAreMany(changed, messages);
    hide PrefixMarked, FairTaking;
  }

  lemma {:induction false} ChangedAreMany(changed: set<string>, messages: seq<Message>)
    requires forall i, j :: 0 <= i < j < |messages| ==> messages[i].key != messages[j].key
    requires forall m :: m in messages ==> m.key in changed
    ensures |messages| <= |changed|
  {
    if messages != [] {
      var rest := changed - {messages[0].key};
      assert messages[0] in messages;
      forall m | m in messages[1..] ensures m.key in rest {
        var i :| 0 <= i < |messages[1..]| && messages[1..][i] == m;
        assert messages[i + 1] == m;
      }
      ChangedAreMany(rest, messages[1..]);
    }
  }

  lemma SendingIsFair(before: map<string, OutboxRow>, taken: map<string, OutboxRow>, after: map<string, OutboxRow>,
                      messages: seq<Message>, marked: nat, sent: nat, log: seq<Record>, longer: seq<Record>, now: int,
                      owner: string, ttl: int, limit: int)
    requires FairTaking(before, taken, messages, now, owner, ttl, limit)
    requires marked <= sent <= |messages| && PrefixMarked(taken, after, messages[..marked])
    requires Appended(log, longer, messages[..sent])
    ensures FairSending(before, after, longer[|log|..], now, owner, ttl, limit)
  {
    ChangedAreTaken(before, taken, after, messages, marked, now, owner, ttl, limit);
    SentAreTaken(before, taken, messages, sent, log, longer, now, owner, ttl, limit);
    hide PrefixMarked, Appended, Mentions, Takeable, IsOf;
    var changed := set k | k in before && k in after && after[k] != before[k];
    ChangedAreFew(changed, messages);
  }

  lemma ChangedAreTaken(before: map<string, OutboxRow>, taken: map<string, OutboxRow>, after: map<string, OutboxRow>,
                        messages: seq<Message>, marked: nat, now: int, owner: string, ttl: int, limit: int)
    requires FairTaking(before, taken, messages, now, owner, ttl, limit)
    requires marked <= |messages| && PrefixMarked(taken, after, messages[..marked])
    ensures forall k :: k in after <==> k in before
    ensures forall k :: k in before && after[k] != before[k] ==>
              && Takeable(before[k], now) && Mentions(messages, k)
              && (after[k].publishedAt.None? ==>
                    after[k] == before[k].(lease := Held(owner, now + ttl), attempts := before[k].attempts + 1))
  {
    forall k | k in before && after[k] != before[k]
      ensures Mentions(messages, k)
      ensures after[k].publishedAt.None? ==> after[k] == taken[k]
    {
      if forall m :: m in messages[..marked] ==> m.key != k {
        assert after[k] == taken[k];
      } else {
        var m :| m in messages[..marked] && m.key == k;
        assert m in messages;
      }
    }
  }

  lemma {:induction false} ChangedAreFew(changed: set<string>, messages: seq<Message>)
    requires forall k :: k in changed ==> Mentions(messages, k)
    ensures |changed| <= |messages|
  {
    if messages == [] {
      assert changed == {};
    } else {
      var rest := changed - {messages[0].key};
      forall k | k in rest ensures Mentions(messages[1..], k) {
        var m :| m in messages && m.key == k;
        assert m in messages[1..];
      }
      ChangedAreFew(rest, messages[1..]);
      SubsetIsNoLarger(changed, rest + {messages[0].key});
    }
  }

  lemma SentAreTaken(before: map<string, OutboxRow>, taken: map<string, OutboxRow>, messages: seq<Message>, sent: nat,
                     log: seq<Record>, longer: seq<Record>, now: int, owner: string, ttl: int, limit: int)
    requires FairTaking(before, taken, messages, now, owner, ttl, limit)
    requires sent <= |messages| && Appended(log, longer, messages[..sent])
    ensures |longer[|log|..]| <= limit
    ensures forall r :: r in longer[|log|..] ==> IsOf(before, now, r)
  {
    var added := longer[|log|..];
    forall r | r in added ensures IsOf(before, now, r) {
      var i :| 0 <= i < |added| && added[i] == r;
      assert longer[|log| + i] == r && messages[..sent][i] == messages[i];
      assert messages[i] in messages && messages[i].key in before;
    }
  }
}
