// internal/ingest/policy_cache.go: calls for a policy interleave, since the lock
// is held only to read and to replace an entry and never while the source answers.
module PolicyCache {
  import opened Telemetry
  import opened Redaction

  datatype Policy = Policy(version: string, expressions: seq<string>, found: bool)
  datatype Entry = Entry(policy: Policy, refreshedAt: int)
  type Policies = map<string, Entry>
  datatype Result = Served(policy: Policy) | Failed

  predicate ValidExpression(lib: Library, expression: string) {
    0 < |expression| <= 512 && lib.compile(expression).Some?
  }

  predicate ValidPolicy(lib: Library, p: Policy) {
    p.found ==> p.version != "" && forall i :: 0 <= i < |p.expressions| ==> ValidExpression(lib, p.expressions[i])
  }

  // A policy that says nothing, or one with a version whose expressions all have 1 to
  // 512 bytes and compile.
  predicate Usable(lib: Library, p: Policy) {
    || !p.found
    || (p.version != "" && forall x :: x in p.expressions ==> x != "" && |x| <= 512 && lib.compile(x) != None)
  }

  lemma UsableIsValid(lib: Library, p: Policy)
    ensures Usable(lib, p) <==> ValidPolicy(lib, p)
  {
    if ValidPolicy(lib, p) && p.found {
      forall x | x in p.expressions ensures ValidExpression(lib, x) {
        var i :| 0 <= i < |p.expressions| && p.expressions[i] == x;
      }
    }
  }

  predicate Current(policies: Policies, tenant: string, now: int, interval: int) {
    tenant in policies && now - policies[tenant].refreshedAt < interval
  }

  // ---------- interleaved calls ----------

  // `hadEntry` is history: whether the tenant had an entry when the call began.
  datatype Call =
    | Asking(tenant: string, began: int, cached: Option<Entry>, hadEntry: bool)
    | Storing(tenant: string, next: Entry, hadEntry: bool)

  // What a finished call returned, whether it had asked the source, and the last
  // valid answer the source had given for the tenant by then.
  datatype Outcome = Outcome(tenant: string, hadEntry: bool, asked: bool, result: Result, latest: Option<Policy>)

  // `answered`, `latest` and `outcomes` are history: what the source returned for
  // which tenant, its last valid answer, and the finished calls.
  datatype State = State(
    policies: Policies,
    calls: map<nat, Call>,
    answered: set<(string, Policy)>,
    latest: map<string, Policy>,
    outcomes: seq<Outcome>)

  function Holding(policies: Policies): State {
    State(policies, map[], {}, map[], [])
  }

  const INITIAL := Holding(map[])

  datatype Action = Begin(c: nat, tenant: string, now: int) | Answer(c: nat, reply: Option<Policy>) | Store(c: nat)

  predicate Enabled(s: State, a: Action) {
    match a
    case Begin(c, tenant, now) => c !in s.calls
    case Answer(c, reply) => c in s.calls && s.calls[c].Asking?
    case Store(c) => c in s.calls && s.calls[c].Storing?
  }

  function Cached(s: State, tenant: string): Option<Entry> {
    if tenant in s.policies then Some(s.policies[tenant]) else None
  }

  function Latest(s: State, tenant: string): Option<Policy> {
    if tenant in s.latest then Some(s.latest[tenant]) else None
  }

  function Finished(s: State, tenant: string, hadEntry: bool, asked: bool, result: Result): seq<Outcome> {
    s.outcomes + [Outcome(tenant, hadEntry, asked, result, Latest(s, tenant))]
  }

  function Do(lib: Library, interval: int, s: State, a: Action): State
    requires Enabled(s, a)
  {
    match a
    case Begin(c, tenant, now) =>
      if Current(s.policies, tenant, now, interval) then
        s.(outcomes := Finished(s, tenant, true, false, Served(s.policies[tenant].policy)))
      else s.(calls := s.calls[c := Asking(tenant, now, Cached(s, tenant), tenant in s.policies)])
    case Answer(c, reply) =>
      var call := s.calls[c];
      var seen := if reply.Some? then s.answered + {(call.tenant, reply.value)} else s.answered;
      if reply.Some? && ValidPolicy(lib, reply.value) then
        s.(calls := s.calls[c := Storing(call.tenant, Entry(reply.value, call.began), call.hadEntry)], answered := seen,
           latest := s.latest[call.tenant := reply.value])
      else
        var result := if call.cached.Some? then Served(call.cached.value.policy) else Failed;
        s.(calls := s.calls - {c}, answered := seen, outcomes := Finished(s, call.tenant, call.hadEntry, true, result))
    case Store(c) =>
      var call := s.calls[c];
      s.(policies := s.policies[call.tenant := call.next], calls := s.calls - {c},
         outcomes := Finished(s, call.tenant, call.hadEntry, true, Served(call.next.policy)))
  }

  predicate Run(lib: Library, interval: int, s: State, actions: seq<Action>)
    decreases |actions|
  {
    actions != [] ==> Enabled(s, actions[0]) && Run(lib, interval, Do(lib, interval, s, actions[0]), actions[1..])
  }

  function After(lib: Library, interval: int, s: State, actions: seq<Action>): State
    requires Run(lib, interval, s, actions)
    decreases |actions|
  {
    if actions == [] then s else After(lib, interval, Do(lib, interval, s, actions[0]), actions[1..])
  }

  // A policy the source returned for the tenant, fully validated.
  ghost predicate Trusted(lib: Library, s: State, tenant: string, p: Policy) {
    ValidPolicy(lib, p) && (tenant, p) in s.answered
  }

  ghost predicate CallSafe(lib: Library, s: State, call: Call) {
    match call
    case Asking(tenant, _, cached, hadEntry) =>
      && (cached.Some? ==> Trusted(lib, s, tenant, cached.value.policy))
      && (hadEntry ==> cached.Some?)
    case Storing(tenant, next, _) => Trusted(lib, s, tenant, next.policy)
  }

  ghost predicate OutcomeSafe(lib: Library, s: State, o: Outcome) {
    && (o.result.Served? ==> Trusted(lib, s, o.tenant, o.result.policy))
    && (o.hadEntry ==> o.result.Served?)
  }

  ghost predicate Safe(lib: Library, s: State) {
    && (forall t :: t in s.policies ==> Trusted(lib, s, t, s.policies[t].policy))
    && (forall c :: c in s.calls ==> CallSafe(lib, s, s.calls[c]))
    && (forall i :: 0 <= i < |s.outcomes| ==> OutcomeSafe(lib, s, s.outcomes[i]))
  }

  lemma StepSafe(lib: Library, interval: int, s: State, a: Action)
    requires Safe(lib, s) && Enabled(s, a)
    ensures Safe(lib, Do(lib, interval, s, a))
    ensures forall t :: t in s.policies ==> t in Do(lib, interval, s, a).policies
  {
    hide ValidPolicy;
    var t := Do(lib, interval, s, a);
    forall c | c in t.calls && c in s.calls && t.calls[c] == s.calls[c] ensures CallSafe(lib, t, t.calls[c]) {
      assert CallSafe(lib, s, s.calls[c]);
    }
    forall i | 0 <= i < |s.outcomes| ensures OutcomeSafe(lib, t, s.outcomes[i]) {
      assert OutcomeSafe(lib, s, s.outcomes[i]);
    }
    if !a.Begin? {
      assert CallSafe(lib, s, s.calls[a.c]);
    }
    if |t.outcomes| > |s.outcomes| {
      assert OutcomeSafe(lib, t, t.outcomes[|s.outcomes|]);
    }
    if a.c in t.calls {
      assert CallSafe(lib, t, t.calls[a.c]);
    }
  }

  // However the calls interleave and whatever the source answers, every entry
  // and every served policy is a validated answer for that tenant, an entry
  // never disappears, and no call that began when its tenant had an entry fails.
  lemma {:induction false} EveryRunIsSafe(lib: Library, interval: int, s: State, actions: seq<Action>)
    requires Safe(lib, s) && Run(lib, interval, s, actions)
    ensures Safe(lib, After(lib, interval, s, actions))
    ensures forall t :: t in s.policies ==> t in After(lib, interval, s, actions).policies
    decreases |actions|
  {
    hide Safe, Enabled, Do;
    if actions != [] {
      StepSafe(lib, interval, s, actions[0]);
      EveryRunIsSafe(lib, interval, Do(lib, interval, s, actions[0]), actions[1..]);
    }
  }

  // ---------- runs, state by state ----------

  function InFlight(s: State, tenant: string): set<nat> {
    set c | c in s.calls && s.calls[c].tenant == tenant
  }

  ghost predicate AtMost(s: State, n: nat) {
    forall tenant: string :: |InFlight(s, tenant)| <= n
  }

  // Never are more than n calls of one tenant in flight.
  ghost predicate Within(lib: Library, interval: int, n: nat, s: State, actions: seq<Action>)
    requires Run(lib, interval, s, actions)
    decreases |actions|
  {
    AtMost(s, n) && (actions != [] ==> Within(lib, interval, n, Do(lib, interval, s, actions[0]), actions[1..]))
  }

  ghost predicate Through(lib: Library, interval: int, a: seq<Action>, states: seq<State>) {
    && |states| == |a| + 1
    && forall i :: 0 <= i < |a| ==> Enabled(states[i], a[i]) && states[i + 1] == Do(lib, interval, states[i], a[i])
  }

  // A run that numbers its calls below n has at most n of them in flight.
  lemma {:induction false} ThroughIsRun(lib: Library, interval: int, a: seq<Action>, states: seq<State>, n: nat)
    requires Through(lib, interval, a, states)
    requires (forall c :: c in states[0].calls ==> c < n) && forall i :: 0 <= i < |a| ==> a[i].c < n
    ensures Run(lib, interval, states[0], a) && After(lib, interval, states[0], a) == states[|a|]
    ensures Within(lib, interval, n, states[0], a)
    decreases |a|
  {
    FewCalls(states[0], n);
    if a != [] {
      var rest, later := a[1..], states[1..];
      NumbersStayLow(lib, interval, states[0], a[0], n);
      hide Enabled, Do;
      assert a[0].c < n;
      forall i | 0 <= i < |rest|
        ensures Enabled(later[i], rest[i]) && later[i + 1] == Do(lib, interval, later[i], rest[i])
      {
        assert later[i] == states[i + 1] && rest[i] == a[i + 1] && later[i + 1] == states[i + 2];
      }
      ThroughIsRun(lib, interval, rest, later, n);
    }
  }

  lemma NumbersStayLow(lib: Library, interval: int, s: State, a: Action, n: nat)
    requires Enabled(s, a) && (forall c :: c in s.calls ==> c < n) && a.c < n
    ensures forall c :: c in Do(lib, interval, s, a).calls ==> c < n
  {
  }

  lemma FewCalls(s: State, n: nat)
    requires forall c :: c in s.calls ==> c < n
    ensures AtMost(s, n)
  {
    forall tenant: string ensures |InFlight(s, tenant)| <= n {
      FewBelow(InFlight(s, tenant), n);
    }
  }

  lemma {:induction false} FewBelow(numbers: set<nat>, n: nat)
    requires forall c :: c in numbers ==> c < n
    ensures |numbers| <= n
    decreases n
  {
    if n == 0 {
      assert numbers == {};
    } else {
      var fewer := numbers - {n - 1};
      FewBelow(fewer, n - 1);
      assert numbers <= fewer + {n - 1};
      SubsetIsNoLarger(numbers, fewer + {n - 1});
    }
  }

  // ---------- one call by itself ----------

  class CachedPolicyResolver {
    const lib: Library
    const interval: int
    var policies: Policies

    constructor (lib: Library, interval: int)
      ensures policies == map[] && this.lib == lib
      ensures this.interval == if interval <= 0 then 30_000_000_000 else interval
    {
      this.lib, policies := lib, map[];
      this.interval := if interval <= 0 then 30_000_000_000 else interval;
    }

    ghost predicate Valid()
      reads this
    {
      forall t :: t in policies ==> ValidPolicy(lib, policies[t].policy)
    }

    // The source's answer, if it is asked, is `reply`; a call that nothing
    // interleaves is a run of the machine above.
    method RedactionPolicy(tenant: string, now: int, reply: Option<Policy>)
      returns (result: Result, ghost actions: seq<Action>)
      requires Valid()
      modifies this
      ensures Valid()
      ensures var s := Holding(old(policies));
              && Run(lib, interval, s, actions)
              && var t := After(lib, interval, s, actions);
                 && t.policies == policies && t.calls == map[] && |t.outcomes| == 1
                 && t.outcomes[0].tenant == tenant && t.outcomes[0].result == result
      ensures result.Failed? <==> tenant !in old(policies) && (reply.None? || !ValidPolicy(lib, reply.value))
      ensures result.Served? ==> ValidPolicy(lib, result.policy)
      ensures var recent := tenant in old(policies) && now - old(policies)[tenant].refreshedAt < interval;
              var usable := !recent && reply.Some? && Usable(lib, reply.value);
              && (if usable then result == Served(reply.value)
                  else if tenant in old(policies) then result == Served(old(policies)[tenant].policy)
                  else result == Failed)
              && policies == if usable then old(policies)[tenant := Entry(reply.value, now)] else old(policies)
    {
      hide ValidPolicy, Usable;
      if reply.Some? {
        UsableIsValid(lib, reply.value);
      }
      ghost var s := Holding(policies);
      ghost var began := Do(lib, interval, s, Begin(0, tenant, now));
      var known := tenant in policies;
      if known && now - policies[tenant].refreshedAt < interval {
        actions := [Begin(0, tenant, now)];
        ThroughIsRun(lib, interval, actions, [s, began], 1);
        return Served(policies[tenant].policy), actions;
      }
      ghost var told := Do(lib, interval, began, Answer(0, reply));
      var usable := false;
      if reply.Some? {
        usable := ValidatePolicy(lib, reply.value);
      }
      if !usable {
        actions := [Begin(0, tenant, now), Answer(0, reply)];
        ThroughIsRun(lib, interval, actions, [s, began, told], 1);
        assert told.calls == map[];
        return if known then Served(policies[tenant].policy) else Failed, actions;
      }
      policies := policies[tenant := Entry(reply.value, now)];
      actions := [Begin(0, tenant, now), Answer(0, reply), Store(0)];
      ghost var stored := Do(lib, interval, told, Store(0));
      assert stored.calls == map[];
      ThroughIsRun(lib, interval, actions, [s, began, told, stored], 1);
      return Served(reply.value), actions;
    }
  }

  method ValidatePolicy(lib: Library, p: Policy) returns (ok: bool)
    ensures ok <==> ValidPolicy(lib, p)
    ensures ok <==> Usable(lib, p)
  {
    UsableIsValid(lib, p);
    if !p.found {
      return true;
    }
    if p.version == "" {
      return false;
    }
    for i := 0 to |p.expressions|
      invariant forall j :: 0 <= j < i ==> ValidExpression(lib, p.expressions[j])
    {
      if |p.expressions[i]| == 0 || |p.expressions[i]| > 512 {
        return false;
      }
      if lib.compile(p.expressions[i]).None? {
        return false;
      }
    }
    return true;
  }
}
