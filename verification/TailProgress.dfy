// What one worker's round of internal/tail/runner.go achieves: with the clock
// past the quiet window and every lease expired, each decision and each
// published message leaves strictly less work behind.
module TailProgress {
  import opened Telemetry
  import opened Sampling
  import opened TailTables
  import opened TailInvariants
  import opened TailMachine

  function Undecideds(s: Tables): set<TraceKey> {
    set id | id in s.traces && Active(s, id)
  }

  function Unpublished(s: Tables): set<string> {
    set k | k in s.outbox && s.outbox[k].publishedAt.None?
  }

  function Work(s: Tables): nat {
    |Undecideds(s)| + |s.buffers| + |Unpublished(s)|
  }

  predicate Quiet(s: Tables, id: TraceKey, now: int, quiet: int)
    requires id in s.traces
  {
    s.traces[id].lastSeen <= now - quiet
  }

  // Nothing has to wait: every undecided trace is quiet and no lease is in force.
  ghost predicate Ripe(s: Tables, now: int, quiet: int) {
    && (forall id :: id in Undecideds(s) ==> Quiet(s, id, now, quiet) && LeaseFree(s.traces[id].lease, now))
    && (forall k :: k in Unpublished(s) ==> LeaseFree(s.outbox[k].lease, now))
  }

  // The same, except for the traces of the claimed leases and the claimed messages.
  ghost predicate Underway(s: Tables, now: int, quiet: int, owner: string, todo: seq<TraceLease>, queue: seq<Message>) {
    && LeasesInForce(s, owner, todo) && OthersRipe(s, now, quiet, todo)
    && MessagesHeld(s, owner, queue) && OthersSendable(s, now, queue)
  }

  ghost predicate LeasesInForce(s: Tables, owner: string, todo: seq<TraceLease>) {
    && (forall i, j :: 0 <= i < j < |todo| ==> todo[i].id != todo[j].id)
    && (forall i :: 0 <= i < |todo| ==> StillLeased(s, owner, todo[i]))
  }

  ghost predicate OthersRipe(s: Tables, now: int, quiet: int, todo: seq<TraceLease>) {
    forall id :: id in Undecideds(s) ==>
      && Quiet(s, id, now, quiet)
      && (LeaseFree(s.traces[id].lease, now) || exists i :: 0 <= i < |todo| && todo[i].id == id)
  }

  ghost predicate MessagesHeld(s: Tables, owner: string, queue: seq<Message>) {
    && (forall i, j :: 0 <= i < j < |queue| ==> queue[i].key != queue[j].key)
    && (forall i :: 0 <= i < |queue| ==> OutboxHeld(s, owner, queue[i].key))
  }

  ghost predicate OthersSendable(s: Tables, now: int, queue: seq<Message>) {
    forall k :: k in Unpublished(s) ==>
      LeaseFree(s.outbox[k].lease, now) || exists i :: 0 <= i < |queue| && queue[i].key == k
  }

  // ---------- claiming traces ----------

  lemma ClaimWork(s: Tables, ids: seq<TraceKey>, owner: string, until: int)
    ensures Work(ClaimTraces(s, ids, owner, until)) == Work(s)
  {
    var t := ClaimTraces(s, ids, owner, until);
    assert Undecideds(t) == Undecideds(s) && Unpublished(t) == Unpublished(s);
  }

  lemma ClaimFindsWork(s: Tables, now: int, quiet: int, at: int, limit: int, ids: seq<TraceKey>)
    requires Ripe(s, now, quiet) && now <= at && LegitClaim(s, at, quiet, limit, {}, ids) && Undecideds(s) != {}
    ensures ids != []
  {
    var id :| id in Undecideds(s);
    assert id in Claimable(s, at, quiet, {});
  }

  lemma ClaimOthersRipe(s: Tables, now: int, quiet: int, ids: seq<TraceKey>, owner: string, until: int,
                        leases: seq<TraceLease>)
    requires Ripe(s, now, quiet)
    requires |leases| == |ids| && forall i :: 0 <= i < |ids| ==> leases[i].id == ids[i]
    ensures OthersRipe(ClaimTraces(s, ids, owner, until), now, quiet, leases)
  {
    var t := ClaimTraces(s, ids, owner, until);
    forall id | id in Undecideds(t)
      ensures Quiet(t, id, now, quiet)
      ensures (LeaseFree(t.traces[id].lease, now) || exists i :: 0 <= i < |leases| && leases[i].id == id)
    {
      assert id in Undecideds(s);
      if id in ids {
        var i :| 0 <= i < |ids| && ids[i] == id;
        assert leases[i].id == id;
      }
    }
  }

  lemma ClaimsUnderway(s: Tables, now: int, quiet: int, at: int, limit: int, ids: seq<TraceKey>, owner: string,
                       until: int)
    requires Ripe(s, now, quiet) && now <= at && LegitClaim(s, at, quiet, limit, {}, ids)
    ensures forall id :: id in ids ==> Active(s, id)
    ensures Underway(ClaimTraces(s, ids, owner, until), now, quiet, owner, LeasesFor(s, ids), [])
  {
    LegitClaimIsActive(s, at, quiet, limit, {}, ids);
    ClaimOthersRipe(s, now, quiet, ids, owner, until, LeasesFor(s, ids));
    var t := ClaimTraces(s, ids, owner, until);
    assert Unpublished(t) == Unpublished(s);
    forall i | 0 <= i < |ids| ensures StillLeased(t, owner, LeasesFor(s, ids)[i]) {
      assert ids[i] in ids;
    }
  }

  // ---------- one decision ----------

  lemma CloseSets(s: Tables, id: TraceKey, reason: Reason, now: int)
    requires Active(s, id)
    ensures var t := Close(s, id, reason, now);
            && Undecideds(t) == Undecideds(s) - {id} && id in Undecideds(s)
            && t.buffers == WithoutBuffersOf(s, id)
            && Unpublished(t) <= Unpublished(s) + BufferedIn(s, id)
  {
    hide BufferedIn, WithoutBuffersOf;
  }

  lemma CloseWork(s: Tables, id: TraceKey, reason: Reason, now: int)
    requires Active(s, id)
    ensures Work(Close(s, id, reason, now)) < Work(s)
  {
    hide Undecideds, BufferedIn, WithoutBuffersOf, Unpublished, Close;
    CloseSets(s, id, reason, now);
    RemovedBuffers(s, id);
    SubsetIsNoLarger(Unpublished(Close(s, id, reason, now)), Unpublished(s) + BufferedIn(s, id));
  }

  lemma RemovedBuffers(s: Tables, id: TraceKey)
    ensures |WithoutBuffersOf(s, id)| == |s.buffers| - |BufferedIn(s, id)|
  {
    var rest, held := WithoutBuffersOf(s, id), BufferedIn(s, id);
    assert s.buffers.Keys == rest.Keys + held && rest.Keys !! held;
  }

  lemma CloseUnderway(s: Tables, now: int, quiet: int, owner: string, todo: seq<TraceLease>, reason: Reason, at: int)
    requires Underway(s, now, quiet, owner, todo, []) && todo != []
    ensures Underway(Close(s, todo[0].id, reason, at), now, quiet, owner, todo[1..], [])
  {
    var t := Close(s, todo[0].id, reason, at);
    var rest := todo[1..];
    forall id | id in Undecideds(t) && !LeaseFree(t.traces[id].lease, now)
      ensures exists i :: 0 <= i < |rest| && rest[i].id == id
    {
      assert id in Undecideds(s);
      var i :| 0 <= i < |todo| && todo[i].id == id;
      assert rest[i - 1].id == id;
    }
    forall k | k in Unpublished(t) ensures LeaseFree(t.outbox[k].lease, now) {
      assert k in s.outbox ==> k in Unpublished(s);
    }
  }

  // No fence stops the only worker: each claimed trace is decided.
  lemma DecisionProgress(s: Tables, shard: Sharding, now: int, quiet: int, owner: string, todo: seq<TraceLease>,
                         reason: Reason, at: int)
    requires Sound(s, shard) && Underway(s, now, quiet, owner, todo, []) && todo != []
    ensures var r := RecordDecision(s, owner, todo[0], reason, Retains(reason), at);
            r.Applied? && Sound(r.tables, shard) && Underway(r.tables, now, quiet, owner, todo[1..], [])
              && Work(r.tables) < Work(s)
  {
    hide Underway, Sound, RecordDecision, Work;
    HeadLeased(s, now, quiet, owner, todo);
    SoundAgrees(s, shard);
    RecordCloses(s, owner, todo[0], reason, at);
    CloseKeepsSound(s, shard, todo[0].id, reason, at);
    CloseUnderway(s, now, quiet, owner, todo, reason, at);
    CloseWork(s, todo[0].id, reason, at);
  }

  lemma HeadLeased(s: Tables, now: int, quiet: int, owner: string, todo: seq<TraceLease>)
    requires Underway(s, now, quiet, owner, todo, []) && todo != []
    ensures StillLeased(s, owner, todo[0]) && Active(s, todo[0].id)
  {
  }

  lemma SoundAgrees(s: Tables, shard: Sharding)
    requires Sound(s, shard)
    ensures DecisionsAgree(s) && LeasesLive(s) && BuffersOpen(s)
  {
  }

  // ---------- publishing ----------

  lemma TakingWork(s: Tables, picked: seq<string>, owner: string, until: int)
    ensures Work(ClaimOutbox(s, picked, owner, until)) == Work(s)
  {
    var t := ClaimOutbox(s, picked, owner, until);
    assert Undecideds(t) == Undecideds(s) && Unpublished(t) == Unpublished(s);
  }

  lemma TakingFindsWork(s: Tables, now: int, at: int, limit: int, picked: seq<string>)
    requires OthersSendable(s, now, []) && now <= at && LegitOutboxClaim(s, at, limit, {}, picked)
    requires Unpublished(s) != {}
    ensures picked != []
  {
    var k :| k in Unpublished(s);
    assert k in Publishable(s, at, {});
  }

  lemma TakingOthersSendable(s: Tables, now: int, picked: seq<string>, owner: string, until: int, queue: seq<Message>)
    requires OthersSendable(s, now, [])
    requires |queue| == |picked| && forall i :: 0 <= i < |picked| ==> queue[i].key == picked[i]
    ensures OthersSendable(ClaimOutbox(s, picked, owner, until), now, queue)
  {
    var t := ClaimOutbox(s, picked, owner, until);
    forall k | k in Unpublished(t)
      ensures LeaseFree(t.outbox[k].lease, now) || exists i :: 0 <= i < |queue| && queue[i].key == k
    {
      assert k in Unpublished(s);
      if k in picked {
        var i :| 0 <= i < |picked| && picked[i] == k;
        assert queue[i].key == k;
      }
    }
  }

  lemma TakingHolds(s: Tables, picked: seq<string>, owner: string, until: int)
    requires forall k :: k in picked ==> k in s.outbox && s.outbox[k].publishedAt.None?
    requires forall i, j :: 0 <= i < j < |picked| ==> picked[i] != picked[j]
    ensures MessagesHeld(ClaimOutbox(s, picked, owner, until), owner, MessagesFor(s, picked))
  {
    var t := ClaimOutbox(s, picked, owner, until);
    forall i | 0 <= i < |picked| ensures OutboxHeld(t, owner, MessagesFor(s, picked)[i].key) {
      assert picked[i] in picked;
    }
  }

  lemma TakingUnderway(s: Tables, now: int, quiet: int, at: int, limit: int, picked: seq<string>, owner: string,
                       until: int)
    requires Underway(s, now, quiet, owner, [], []) && now <= at && LegitOutboxClaim(s, at, limit, {}, picked)
    ensures forall k :: k in picked ==> k in s.outbox
    ensures Underway(ClaimOutbox(s, picked, owner, until), now, quiet, owner, [], MessagesFor(s, picked))
  {
    hide LegitOutboxClaim, OthersSendable, MessagesHeld, MessagesFor, ClaimOutbox;
    LegitOutboxClaimIsUnpublished(s, at, limit, {}, picked);
    TakingOthersSendable(s, now, picked, owner, until, MessagesFor(s, picked));
    TakingHolds(s, picked, owner, until);
    TakingKeepsTraces(s, picked, owner, until);
  }

  lemma TakingKeepsTraces(s: Tables, picked: seq<string>, owner: string, until: int)
    ensures var t := ClaimOutbox(s, picked, owner, until); t.traces == s.traces && Undecideds(t) == Undecideds(s)
  {
  }

  lemma MarkProgress(s: Tables, shard: Sharding, now: int, quiet: int, owner: string, queue: seq<Message>, at: int)
    requires Sound(s, shard) && Underway(s, now, quiet, owner, [], queue) && queue != []
    ensures OutboxHeld(s, owner, queue[0].key)
    ensures var t := MarkPublished(s, queue[0].key, at);
            Sound(t, shard) && Underway(t, now, quiet, owner, [], queue[1..]) && Work(t) < Work(s)
  {
    var t := MarkPublished(s, queue[0].key, at);
    SoundAgrees(s, shard);
    MarkUnderway(s, now, quiet, owner, queue, at);
    MarkWork(s, queue[0].key, at);
    MarkIsOutboxState(s, queue[0].key, at);
    hide Sound, Underway, Work, MarkPublished, OnlyOutboxState;
    OutboxStateKeepsSound(s, t, shard);
  }

  lemma MarkWork(s: Tables, key: string, at: int)
    requires key in s.outbox && s.outbox[key].publishedAt.None?
    ensures Work(MarkPublished(s, key, at)) < Work(s)
  {
    var t := MarkPublished(s, key, at);
    assert Undecideds(t) == Undecideds(s) && Unpublished(t) == Unpublished(s) - {key};
    assert key in Unpublished(s);
  }

  lemma MarkUnderway(s: Tables, now: int, quiet: int, owner: string, queue: seq<Message>, at: int)
    requires Underway(s, now, quiet, owner, [], queue) && queue != []
    ensures OutboxHeld(s, owner, queue[0].key)
    ensures Underway(MarkPublished(s, queue[0].key, at), now, quiet, owner, [], queue[1..])
  {
    var t, rest := MarkPublished(s, queue[0].key, at), queue[1..];
    forall k | k in Unpublished(t) && !LeaseFree(t.outbox[k].lease, now)
      ensures exists i :: 0 <= i < |rest| && rest[i].key == k
    {
      assert k in Unpublished(s);
      var i :| 0 <= i < |queue| && queue[i].key == k;
      assert rest[i - 1].key == k;
    }
    assert forall id :: id in Undecideds(t) ==> id in Undecideds(s);
  }

  // No work left means empty buffers and every message published.
  lemma NoWorkLeft(s: Tables)
    requires Work(s) == 0
    ensures s.buffers == map[]
    ensures forall k :: k in s.outbox ==> s.outbox[k].publishedAt.Some?
    ensures forall id :: id in s.traces ==> s.traces[id].status.Decided?
  {
    forall k | k in s.outbox ensures s.outbox[k].publishedAt.Some? {
      assert k !in Unpublished(s);
    }
    forall id | id in s.traces ensures s.traces[id].status.Decided? {
      assert id !in Undecideds(s);
    }
  }

  lemma WorkMeansSomethingToClaim(s: Tables)
    requires BuffersOpen(s) && Work(s) > 0
    ensures Undecideds(s) != {} || Unpublished(s) != {}
  {
    if k :| k in s.buffers {
      assert s.buffers[k].home in Undecideds(s);
    }
  }

  // ---------- one round ----------

  lemma ClaimSmooth(s: Tables, shard: Sharding, start: int, quiet: int, at: int, limit: int, ids: seq<TraceKey>,
                    owner: string, until: int)
    requires Sound(s, shard) && Ripe(s, start, quiet) && start <= at && LegitClaim(s, at, quiet, limit, {}, ids)
    ensures forall id :: id in ids ==> id in s.traces
    ensures var t := ClaimTraces(s, ids, owner, until);
            Sound(t, shard) && Underway(t, start, quiet, owner, LeasesFor(s, ids), []) && Work(t) == Work(s)
    ensures Undecideds(s) != {} ==> ids != []
    ensures ids == [] ==> ClaimTraces(s, ids, owner, until) == s
  {
    assert ids == [] ==> ClaimTraces(s, ids, owner, until) == s;
    hide Sound, Ripe, Underway, LegitClaim, Work, Undecideds, ClaimTraces;
    ClaimsUnderway(s, start, quiet, at, limit, ids, owner, until);
    ClaimTracesKeepsSound(s, shard, ids, owner, until);
    ClaimWork(s, ids, owner, until);
    if Undecideds(s) != {} {
      ClaimFindsWork(s, start, quiet, at, limit, ids);
    }
  }

  lemma TakeSmooth(s: Tables, shard: Sharding, start: int, quiet: int, at: int, limit: int, picked: seq<string>,
                   owner: string, until: int)
    requires Sound(s, shard) && Underway(s, start, quiet, owner, [], []) && start <= at
    requires LegitOutboxClaim(s, at, limit, {}, picked)
    ensures forall k :: k in picked ==> k in s.outbox
    ensures var t := ClaimOutbox(s, picked, owner, until);
            Sound(t, shard) && Underway(t, start, quiet, owner, [], MessagesFor(s, picked)) && Work(t) == Work(s)
    ensures Unpublished(s) != {} ==> picked != []
  {
    hide Sound, LegitOutboxClaim, Work, Unpublished, ClaimOutbox, OthersSendable;
    SoundAgrees(s, shard);
    TakingUnderway(s, start, quiet, at, limit, picked, owner, until);
    LegitOutboxClaimIsUnpublished(s, at, limit, {}, picked);
    ClaimOutboxIsOutboxState(s, shard, picked, owner, until);
    OutboxStateKeepsSound(s, ClaimOutbox(s, picked, owner, until), shard);
    TakingWork(s, picked, owner, until);
    if Unpublished(s) != {} {
      TakingFindsWork(s, start, at, limit, picked);
    }
  }

  lemma RoundProgress(before: Tables, decided: Tables, after: Tables, shard: Sharding, start: int, end: int,
                      quiet: int, owner: string)
    requires Sound(before, shard) && start <= end
    requires Work(decided) < Work(before) || decided == before
    requires Undecideds(before) != {} ==> Work(decided) < Work(before)
    requires Work(after) <= Work(decided)
    requires Unpublished(decided) != {} ==> Work(after) < Work(decided)
    requires Underway(after, start, quiet, owner, [], [])
    ensures Ripe(after, end, quiet)
    ensures Work(before) > 0 ==> Work(after) < Work(before)
  {
    hide Sound, Work, Undecideds, Unpublished;
    SoundAgrees(before, shard);
    if Work(before) > 0 {
      WorkMeansSomethingToClaim(before);
    }
  }
}
