// Numbers that follow from the invariants: what one tenant can occupy, and
// where every registered key went.
module TailCounting {
  import opened TailTables
  import opened TailInvariants

  // ---------- capacity ----------

  function ActiveOf(s: Tables, tenant: string): set<TraceKey> {
    set id | id in s.traces && Active(s, id) && id.tenant == tenant
  }

  function ActiveBelow(s: Tables, shard: Sharding, tenant: string, n: nat): set<TraceKey> {
    set id | id in s.traces && Active(s, id) && id.tenant == tenant && shard(id.trace) < n
  }

  lemma {:induction false} ActiveBelowBounded(s: Tables, shard: Sharding, tenant: string, n: nat)
    requires ShardsBounded(s, shard) && n <= LOCK_SHARDS
    ensures |ActiveBelow(s, shard, tenant, n)| <= n * SHARD_TRACES
  {
    if n == 0 {
      assert ActiveBelow(s, shard, tenant, 0) == {};
    } else {
      ActiveBelowBounded(s, shard, tenant, n - 1);
      assert ActiveBelow(s, shard, tenant, n)
          == ActiveBelow(s, shard, tenant, n - 1) + ActiveInShard(s, shard, tenant, n - 1);
    }
  }

  function BufferedInAny(s: Tables, ids: set<TraceKey>): set<string> {
    set k | k in s.buffers && s.buffers[k].home in ids
  }

  lemma {:induction false} BuffersBounded(s: Tables, ids: set<TraceKey>)
    requires OpenTracesCounted(s) && forall id :: id in ids ==> Active(s, id)
    ensures |BufferedInAny(s, ids)| <= MAX_SPANS * |ids|
    decreases |ids|
  {
    if ids == {} {
      assert BufferedInAny(s, ids) == {};
    } else {
      var id :| id in ids;
      assert Counted(s, id);
      BuffersBounded(s, ids - {id});
      assert BufferedInAny(s, ids) == BufferedInAny(s, ids - {id}) + BufferedIn(s, id);
    }
  }

  // One tenant occupies at most 1,000 undecided traces and 200,000 buffer rows.
  lemma TenantCapacity(s: Tables, shard: Sharding, tenant: string)
    requires Sound(s, shard)
    ensures |ActiveOf(s, tenant)| <= MAX_TRACES
    ensures |set k | k in s.buffers && s.buffers[k].home.tenant == tenant| <= MAX_TRACES * MAX_SPANS
  {
    var ids := ActiveOf(s, tenant);
    ActiveBelowBounded(s, shard, tenant, LOCK_SHARDS);
    assert ids == ActiveBelow(s, shard, tenant, LOCK_SHARDS);
    BuffersBounded(s, ids);
    assert (set k | k in s.buffers && s.buffers[k].home.tenant == tenant) == BufferedInAny(s, ids);
  }

  // ---------- conservation ----------

  ghost function SpanSum(s: Tables, ids: set<TraceKey>): nat
    requires ids <= s.decisions.Keys
  {
    if ids == {} then 0
    else
      var id :| id in ids;
      s.decisions[id].spanCount + SpanSum(s, ids - {id})
  }

  function NotRetained(s: Tables): set<TraceKey> {
    set id | id in s.decisions && !s.decisions[id].retained
  }

  function RegisteredToAny(s: Tables, ids: set<TraceKey>): set<string> {
    set k | k in s.keys && s.keys[k].home in ids
  }

  lemma {:induction false} SpanSumCountsKeys(s: Tables, ids: set<TraceKey>)
    requires DecisionsAgree(s) && SpanCountsMatchKeys(s) && ids <= s.decisions.Keys
    ensures SpanSum(s, ids) == |RegisteredToAny(s, ids)|
    decreases |ids|
  {
    if ids == {} {
      assert RegisteredToAny(s, ids) == {};
    } else {
      var id :| id in ids && SpanSum(s, ids) == s.decisions[id].spanCount + SpanSum(s, ids - {id});
      SpanSumCountsKeys(s, ids - {id});
      assert RegisteredToAny(s, ids) == RegisteredToAny(s, ids - {id}) + RegisteredTo(s, id);
    }
  }

  lemma KeysPartition(s: Tables)
    requires DecisionsAgree(s) && EachKeyInOnePlace(s)
    ensures var dropped := RegisteredToAny(s, NotRetained(s));
            && s.keys.Keys == s.buffers.Keys + s.outbox.Keys + dropped
            && s.buffers.Keys !! s.outbox.Keys !! dropped
  {
  }

  lemma DisjointUnionSize(a: set<string>, b: set<string>, c: set<string>)
    requires a !! b !! c
    ensures |a + b + c| == |a| + |b| + |c|
  {
  }

  // Registered keys = buffered + in the outbox + counted by a non-retained decision.
  lemma KeysConserved(s: Tables, shard: Sharding)
    requires Sound(s, shard) && Complete(s)
    ensures |s.keys| == |s.buffers| + |s.outbox| + SpanSum(s, NotRetained(s))
  {
    SpanSumCountsKeys(s, NotRetained(s));
    KeysPartition(s);
    DisjointUnionSize(s.buffers.Keys, s.outbox.Keys, RegisteredToAny(s, NotRetained(s)));
    assert |s.keys| == |s.keys.Keys| && |s.buffers| == |s.buffers.Keys| && |s.outbox| == |s.outbox.Keys|;
  }
}
