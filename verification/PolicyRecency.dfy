// Does the cache keep the last valid policy, as its description promises? It
// does exactly when no two refreshes of one tenant overlap.
module PolicyRecency {
  import opened Telemetry
  import opened Redaction
  import opened PolicyCache

  // The entry is the last valid answer, or the call that got a later one is
  // about to store it.
  ghost predicate EntryRecent(s: State, tenant: string)
    requires tenant in s.policies
  {
    && tenant in s.latest
    && (s.policies[tenant].policy == s.latest[tenant]
        || exists c :: c in s.calls && Delivers(s, c, tenant))
  }

  predicate Delivers(s: State, c: nat, tenant: string)
    requires c in s.calls
  {
    && s.calls[c].Storing? && s.calls[c].tenant == tenant
    && tenant in s.latest && s.calls[c].next.policy == s.latest[tenant]
  }

  // A policy served after asking the source is the last valid answer.
  predicate OutcomeRecent(o: Outcome) {
    o.asked && o.result.Served? ==> o.latest == Some(o.result.policy)
  }

  ghost predicate EntriesRecent(s: State) {
    forall t :: t in s.policies ==> EntryRecent(s, t)
  }

  ghost predicate OutcomesRecent(s: State) {
    forall i :: 0 <= i < |s.outcomes| ==> OutcomeRecent(s.outcomes[i])
  }

  ghost predicate Recent(s: State) {
    EntriesRecent(s) && OutcomesRecent(s)
  }

  // ---------- one call at a time ----------

  ghost predicate OneEach(s: State) {
    forall c, d :: c in s.calls && d in s.calls && s.calls[c].tenant == s.calls[d].tenant ==> c == d
  }

  ghost predicate CallRecent(s: State, c: nat)
    requires c in s.calls
  {
    var call := s.calls[c];
    if call.Asking? then
      && call.cached == Cached(s, call.tenant)
      && (call.tenant in s.policies ==>
            call.tenant in s.latest && s.policies[call.tenant].policy == s.latest[call.tenant])
    else Delivers(s, c, call.tenant)
  }

  ghost predicate Serial(s: State) {
    Recent(s) && forall c :: c in s.calls ==> CallRecent(s, c)
  }

  lemma AtMostOneIsOneEach(s: State, n: nat)
    requires AtMost(s, n) && n <= 1
    ensures OneEach(s)
  {
    forall c, d | c in s.calls && d in s.calls && s.calls[c].tenant == s.calls[d].tenant ensures c == d {
      var both := InFlight(s, s.calls[c].tenant);
      assert |both| <= 1 && {c, d} <= both;
      SubsetIsNoLarger({c, d}, both);
    }
  }

  lemma StepEntries(lib: Library, interval: int, s: State, a: Action, x: string)
    requires Enabled(s, a) && Serial(s) && OneEach(s) && x in Do(lib, interval, s, a).policies
    ensures EntryRecent(Do(lib, interval, s, a), x)
  {
    hide ValidPolicy, Current;
    var t := Do(lib, interval, s, a);
    if a.c in s.calls {
      assert CallRecent(s, a.c);
    }
    if a.c in t.calls && t.calls[a.c].tenant == x && t.calls[a.c].Storing? {
      assert Delivers(t, a.c, x);
    } else if x in s.policies && s.policies[x].policy != s.latest[x] {
      assert EntryRecent(s, x);
      var d :| d in s.calls && Delivers(s, d, x);
      assert d != a.c ==> Delivers(t, d, x);
    }
  }

  lemma StepCalls(lib: Library, interval: int, s: State, a: Action, c: nat)
    requires Enabled(s, a) && Serial(s) && OneEach(s) && OneEach(Do(lib, interval, s, a))
    requires c in Do(lib, interval, s, a).calls
    ensures CallRecent(Do(lib, interval, s, a), c)
  {
    hide ValidPolicy, Current, EntryRecent, OneEach;
    if c in s.calls {
      assert CallRecent(s, c);
      OneEachParts(s, c, a.c);
    } else {
      EntryAloneIsRecent(s, a);
    }
  }

  lemma OneEachParts(s: State, c: nat, d: nat)
    requires OneEach(s) && c in s.calls
    ensures d in s.calls && d != c ==> s.calls[d].tenant != s.calls[c].tenant
  {
  }

  // Before a new call of a tenant begins, no other is under way to store.
  lemma EntryAloneIsRecent(s: State, a: Action)
    requires a.Begin? && Recent(s) && a.c !in s.calls
    requires OneEach(s.(calls := s.calls[a.c := Asking(a.tenant, a.now, Cached(s, a.tenant), a.tenant in s.policies)]))
    ensures a.tenant in s.policies ==> a.tenant in s.latest && s.policies[a.tenant].policy == s.latest[a.tenant]
  {
    var calls := s.calls[a.c := Asking(a.tenant, a.now, Cached(s, a.tenant), a.tenant in s.policies)];
    var t := s.(calls := calls);
    assert a.c in t.calls && t.calls[a.c].tenant == a.tenant;
    forall d | d in s.calls ensures s.calls[d].tenant != a.tenant {
      assert d in t.calls && t.calls[d] == s.calls[d] && d != a.c;
    }
    assert a.tenant in s.policies ==> EntryRecent(s, a.tenant);
    hide OneEach;
  }

  lemma StepOutcomes(lib: Library, interval: int, s: State, a: Action, i: nat)
    requires Enabled(s, a) && Serial(s) && i < |Do(lib, interval, s, a).outcomes|
    ensures OutcomeRecent(Do(lib, interval, s, a).outcomes[i])
  {
    hide ValidPolicy, Current, EntryRecent;
    if i < |s.outcomes| {
      assert OutcomeRecent(s.outcomes[i]);
    } else if a.c in s.calls {
      assert CallRecent(s, a.c);
    }
  }

  lemma StepSerial(lib: Library, interval: int, s: State, a: Action)
    requires Enabled(s, a) && Serial(s) && OneEach(s) && OneEach(Do(lib, interval, s, a))
    ensures Serial(Do(lib, interval, s, a))
  {
    var t := Do(lib, interval, s, a);
    hide Do, Enabled, OneEach, EntryRecent, CallRecent, OutcomeRecent;
    forall x | x in t.policies ensures EntryRecent(t, x) {
      StepEntries(lib, interval, s, a, x);
    }
    forall c | c in t.calls ensures CallRecent(t, c) {
      StepCalls(lib, interval, s, a, c);
    }
    forall i | 0 <= i < |t.outcomes| ensures OutcomeRecent(t.outcomes[i]) {
      StepOutcomes(lib, interval, s, a, i);
    }
  }

  lemma {:induction false} SerialRunIsRecent(lib: Library, interval: int, n: nat, s: State, actions: seq<Action>)
    requires n <= 1 && Serial(s) && Run(lib, interval, s, actions) && Within(lib, interval, n, s, actions)
    ensures Recent(After(lib, interval, s, actions))
    decreases |actions|
  {
    hide Recent, Do, Enabled, OneEach, AtMost;
    AtMostOneIsOneEach(s, n);
    if actions != [] {
      var t := Do(lib, interval, s, actions[0]);
      AtMostOneIsOneEach(t, n);
      StepSerial(lib, interval, s, actions[0]);
      SerialRunIsRecent(lib, interval, n, t, actions[1..]);
    }
  }

  // ---------- two calls at a time ----------

  lemma Asks(lib: Library, interval: int, s: State, c: nat, tenant: string, now: int)
    requires c !in s.calls && !Current(s.policies, tenant, now, interval)
    ensures Enabled(s, Begin(c, tenant, now))
    ensures Do(lib, interval, s, Begin(c, tenant, now))
            == s.(calls := s.calls[c := Asking(tenant, now, Cached(s, tenant), tenant in s.policies)])
  {
  }

  lemma Answers(lib: Library, interval: int, s: State, c: nat, p: Policy)
    requires c in s.calls && s.calls[c].Asking? && ValidPolicy(lib, p)
    ensures Enabled(s, Answer(c, Some(p)))
    ensures var call := s.calls[c];
            Do(lib, interval, s, Answer(c, Some(p)))
            == s.(calls := s.calls[c := Storing(call.tenant, Entry(p, call.began), call.hadEntry)],
                  answered := s.answered + {(call.tenant, p)}, latest := s.latest[call.tenant := p])
  {
  }

  lemma GivesUp(lib: Library, interval: int, s: State, c: nat)
    requires c in s.calls && s.calls[c].Asking? && s.calls[c].cached.Some?
    ensures Enabled(s, Answer(c, None))
    ensures var call := s.calls[c];
            Do(lib, interval, s, Answer(c, None))
            == s.(calls := s.calls - {c},
                  outcomes := Finished(s, call.tenant, call.hadEntry, true, Served(call.cached.value.policy)))
  {
  }

  lemma Stores(lib: Library, interval: int, s: State, c: nat)
    requires c in s.calls && s.calls[c].Storing?
    ensures Enabled(s, Store(c))
    ensures var call := s.calls[c];
            Do(lib, interval, s, Store(c))
            == s.(policies := s.policies[call.tenant := call.next], calls := s.calls - {c},
                  outcomes := Finished(s, call.tenant, call.hadEntry, true, Served(call.next.policy)))
  {
  }

  // Two refreshes that overlap may finish in the wrong order: the policy the
  // source returned first stays in the cache, though it has returned a newer one.
  lemma OlderRefreshMayWin(lib: Library, interval: int, tenant: string, older: Policy, newer: Policy, n: nat)
    requires ValidPolicy(lib, older) && ValidPolicy(lib, newer) && older != newer && n >= 2
    ensures var a := [Begin(0, tenant, 0), Answer(0, Some(older)), Begin(1, tenant, 1), Answer(1, Some(newer)),
                      Store(1), Store(0)];
            && Run(lib, interval, INITIAL, a) && Within(lib, interval, n, INITIAL, a)
            && var t := After(lib, interval, INITIAL, a);
               t.policies == map[tenant := Entry(older, 0)] && t.latest == map[tenant := newer] && t.calls == map[]
  {
    hide ValidPolicy, Do, Enabled, Within, Finished, Run, After;
    var a := [Begin(0, tenant, 0), Answer(0, Some(older)), Begin(1, tenant, 1), Answer(1, Some(newer)),
              Store(1), Store(0)];
    Asks(lib, interval, INITIAL, 0, tenant, 0);
    var s1 := Do(lib, interval, INITIAL, a[0]);
    Answers(lib, interval, s1, 0, older);
    var s2 := Do(lib, interval, s1, a[1]);
    Asks(lib, interval, s2, 1, tenant, 1);
    var s3 := Do(lib, interval, s2, a[2]);
    Answers(lib, interval, s3, 1, newer);
    var s4 := Do(lib, interval, s3, a[3]);
    Stores(lib, interval, s4, 1);
    var s5 := Do(lib, interval, s4, a[4]);
    Stores(lib, interval, s5, 0);
    var s6 := Do(lib, interval, s5, a[5]);
    assert s6.policies == map[tenant := Entry(older, 0)] && s6.latest == map[tenant := newer] && s6.calls == map[];
    ThroughIsRun(lib, interval, a, [INITIAL, s1, s2, s3, s4, s5, s6], n);
  }

  // `t` is where the actions lead, with at most n calls of a tenant in flight.
  ghost predicate Takes(lib: Library, interval: int, n: nat, s: State, actions: seq<Action>, t: State) {
    && Run(lib, interval, s, actions) && Within(lib, interval, n, s, actions) && After(lib, interval, s, actions) == t
  }

  lemma {:induction false} TakesOn(lib: Library, interval: int, n: nat, s: State, first: seq<Action>, t: State,
                                   second: seq<Action>, v: State)
    requires Takes(lib, interval, n, s, first, t) && Takes(lib, interval, n, t, second, v)
    ensures Takes(lib, interval, n, s, first + second, v)
    decreases |first|
  {
    hide Enabled, Do, AtMost;
    if first == [] {
      assert first + second == second;
    } else {
      assert (first + second)[1..] == first[1..] + second;
      TakesOn(lib, interval, n, Do(lib, interval, s, first[0]), first[1..], t, second, v);
    }
  }

  lemma FirstRefresh(lib: Library, interval: int, tenant: string, older: Policy, n: nat) returns (t: State)
    requires ValidPolicy(lib, older) && n >= 2
    ensures Takes(lib, interval, n, INITIAL, [Begin(0, tenant, 0), Answer(0, Some(older)), Store(0)], t)
    ensures t.calls == map[] && t.policies == map[tenant := Entry(older, 0)]
  {
    hide ValidPolicy, Do, Enabled;
    var a := [Begin(0, tenant, 0), Answer(0, Some(older)), Store(0)];
    Asks(lib, interval, INITIAL, 0, tenant, 0);
    var s1 := Do(lib, interval, INITIAL, a[0]);
    Answers(lib, interval, s1, 0, older);
    var s2 := Do(lib, interval, s1, a[1]);
    Stores(lib, interval, s2, 0);
    var s3 := Do(lib, interval, s2, a[2]);
    hide Within;
    ThroughIsRun(lib, interval, a, [INITIAL, s1, s2, s3], n);
    t := s3;
  }

  lemma OverlappingRefreshes(lib: Library, interval: int, tenant: string, older: Policy, newer: Policy, n: nat,
                             s: State)
    returns (t: State)
    requires ValidPolicy(lib, newer) && n >= 2
    requires s.calls == map[] && s.policies == map[tenant := Entry(older, 0)]
    ensures Takes(lib, interval, n, s, [Begin(0, tenant, interval), Begin(1, tenant, interval), Answer(1, Some(newer)),
                                        Store(1), Answer(0, None)], t)
    ensures t.policies == map[tenant := Entry(newer, interval)]
    ensures |t.outcomes| > 0
            && t.outcomes[|t.outcomes| - 1] == Outcome(tenant, true, true, Served(older), Some(newer))
  {
    hide ValidPolicy, Do, Enabled;
    var a := [Begin(0, tenant, interval), Begin(1, tenant, interval), Answer(1, Some(newer)), Store(1),
              Answer(0, None)];
    Asks(lib, interval, s, 0, tenant, interval);
    var s1 := Do(lib, interval, s, a[0]);
    Asks(lib, interval, s1, 1, tenant, interval);
    var s2 := Do(lib, interval, s1, a[1]);
    Answers(lib, interval, s2, 1, newer);
    var s3 := Do(lib, interval, s2, a[2]);
    Stores(lib, interval, s3, 1);
    var s4 := Do(lib, interval, s3, a[3]);
    GivesUp(lib, interval, s4, 0);
    var s5 := Do(lib, interval, s4, a[4]);
    hide Within;
    ThroughIsRun(lib, interval, a, [s, s1, s2, s3, s4, s5], n);
    t := s5;
  }

  // A call that began with a stale entry and whose source then fails serves that
  // entry, after an overlapping call has stored a newer policy.
  lemma StaleEntryMayBeServed(lib: Library, interval: int, tenant: string, older: Policy, newer: Policy, n: nat)
    returns (t: State)
    requires ValidPolicy(lib, older) && ValidPolicy(lib, newer) && older != newer && n >= 2
    ensures Takes(lib, interval, n, INITIAL,
                  [Begin(0, tenant, 0), Answer(0, Some(older)), Store(0)]
                  + [Begin(0, tenant, interval), Begin(1, tenant, interval), Answer(1, Some(newer)), Store(1),
                     Answer(0, None)], t)
    ensures t.policies == map[tenant := Entry(newer, interval)]
    ensures |t.outcomes| > 0
            && t.outcomes[|t.outcomes| - 1] == Outcome(tenant, true, true, Served(older), Some(newer))
  {
    hide ValidPolicy, Do, Enabled, Takes;
    var s := FirstRefresh(lib, interval, tenant, older, n);
    t := OverlappingRefreshes(lib, interval, tenant, older, newer, n, s);
    TakesOn(lib, interval, n, INITIAL, [Begin(0, tenant, 0), Answer(0, Some(older)), Store(0)], s,
            [Begin(0, tenant, interval), Begin(1, tenant, interval), Answer(1, Some(newer)), Store(1),
             Answer(0, None)], t);
  }

  // ---------- the exact condition ----------

  ghost predicate EntriesStayRecent(lib: Library, interval: int, n: nat) {
    forall actions :: Run(lib, interval, INITIAL, actions) && Within(lib, interval, n, INITIAL, actions) ==>
      EntriesRecent(After(lib, interval, INITIAL, actions))
  }

  ghost predicate AnswersStayRecent(lib: Library, interval: int, n: nat) {
    forall actions :: Run(lib, interval, INITIAL, actions) && Within(lib, interval, n, INITIAL, actions) ==>
      OutcomesRecent(After(lib, interval, INITIAL, actions))
  }

  // With at most n refreshes of a tenant in flight, every entry is the last valid
  // answer if and only if n is at most one, and so is every policy served after
  // asking the source.
  lemma CacheIsRecentExactly(lib: Library, interval: int, tenant: string, older: Policy, newer: Policy, n: nat)
    requires ValidPolicy(lib, older) && ValidPolicy(lib, newer) && older != newer
    ensures EntriesStayRecent(lib, interval, n) <==> n <= 1
    ensures AnswersStayRecent(lib, interval, n) <==> n <= 1
  {
    hide ValidPolicy;
    if n <= 1 {
      forall actions | Run(lib, interval, INITIAL, actions) && Within(lib, interval, n, INITIAL, actions)
        ensures Recent(After(lib, interval, INITIAL, actions))
      {
        SerialRunIsRecent(lib, interval, n, INITIAL, actions);
      }
    } else {
      OlderRefreshMayWin(lib, interval, tenant, older, newer, n);
      var a := [Begin(0, tenant, 0), Answer(0, Some(older)), Begin(1, tenant, 1), Answer(1, Some(newer)),
                Store(1), Store(0)];
      var t := StaleEntryMayBeServed(lib, interval, tenant, older, newer, n);
      hide Do, Run, After, Within;
      assert !EntryRecent(After(lib, interval, INITIAL, a), tenant);
      assert !OutcomeRecent(t.outcomes[|t.outcomes| - 1]);
    }
  }
}
