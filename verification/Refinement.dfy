// The imperative workers run inside the pipeline: what the gateway, a tail worker
// or a persistence worker does from a reachable state ends in a reachable state,
// so every guarantee about reachable states holds of them.
module Refinement {
  import T = TailMachine
  import P = Pipeline
  import D = Delivery
  import Runner
  import Consumer

  lemma {:induction false} OneStepLonger(u: T.Setup, s: P.State, actions: seq<P.Action>, a: P.Action)
    requires P.Run(u, s, actions) && P.Enabled(u, P.After(u, s, actions), a)
    ensures P.Run(u, s, actions + [a])
    ensures P.After(u, s, actions + [a]) == P.Do(u, P.After(u, s, actions), a)
    decreases |actions|
  {
    hide P.Enabled, P.Do;
    var longer := actions + [a];
    if actions == [] {
      assert longer[0] == a && longer[1..] == [];
      assert P.Run(u, P.Do(u, s, a), []) && P.After(u, P.Do(u, s, a), []) == P.Do(u, s, a);
    } else {
      assert longer[1..] == actions[1..] + [a];
      OneStepLonger(u, P.Do(u, s, actions[0]), actions[1..], a);
    }
  }

  lemma StepStaysReachable(u: T.Setup, s: P.State, a: P.Action)
    requires P.Reachable(u, s) && P.Enabled(u, s, a)
    ensures P.Reachable(u, P.Do(u, s, a))
  {
    hide P.Enabled, P.Do, P.Run, P.After;
    var actions :| P.Run(u, P.INITIAL, actions) && s == P.After(u, P.INITIAL, actions);
    OneStepLonger(u, P.INITIAL, actions, a);
  }

  lemma StepStaysReachableWithoutDeletion(u: T.Setup, s: P.State, a: P.Action)
    requires P.ReachableWithoutDeletion(u, s) && P.Enabled(u, s, a) && (a.Tail? ==> !T.Deletes(a.tailAction))
    ensures P.ReachableWithoutDeletion(u, P.Do(u, s, a))
  {
    hide P.Enabled, P.Do, P.Run, P.After, T.Deletes;
    var actions :| P.Run(u, P.INITIAL, actions) && P.DeletionFree(actions) && s == P.After(u, P.INITIAL, actions);
    OneStepLonger(u, P.INITIAL, actions, a);
    assert P.DeletionFree(actions + [a]);
  }

  lemma TailStep(u: T.Setup, s: P.State, a: T.Action)
    requires T.Enabled(u, s.tail, a)
    ensures P.Enabled(u, s, P.Tail(a)) && P.Do(u, s, P.Tail(a)) == s.(tail := T.Do(u, s.tail, a))
  {
    hide T.Enabled, T.Do;
  }

  lemma DeliveryStep(u: T.Setup, s: P.State, a: D.Action)
    requires D.Enabled(s.tail.log, s.delivery, a)
    ensures P.Enabled(u, s, P.Deliver(a)) && P.Do(u, s, P.Deliver(a)) == s.(delivery := D.Do(s.tail.log, s.delivery, a))
  {
    hide D.Enabled, D.Do;
  }

  // A call of Process, however it ends, leads from a reachable state to a reachable one.
  lemma {:induction false} WorkerStaysReachable(u: T.Setup, w: nat, s: P.State, actions: seq<T.Action>, t: T.State)
    requires P.Reachable(u, s) && Runner.Leads(u, w, s.tail, actions, t)
    ensures P.Reachable(u, s.(tail := t))
    ensures P.ReachableWithoutDeletion(u, s) ==> P.ReachableWithoutDeletion(u, s.(tail := t))
    decreases |actions|
  {
    hide T.Enabled, T.Do, P.Enabled, P.Do, P.Reachable, P.ReachableWithoutDeletion;
    if actions == [] {
      assert s.(tail := t) == s;
    } else {
      TailStep(u, s, actions[0]);
      StepStaysReachable(u, s, P.Tail(actions[0]));
      if P.ReachableWithoutDeletion(u, s) {
        StepStaysReachableWithoutDeletion(u, s, P.Tail(actions[0]));
      }
      var next := s.(tail := T.Do(u, s.tail, actions[0]));
      WorkerStaysReachable(u, w, next, actions[1..], t);
      assert next.(tail := t) == s.(tail := t);
    }
  }

  // So does a run of a persistence worker.
  lemma {:induction false} ConsumerStaysReachable(u: T.Setup, w: nat, s: P.State, actions: seq<D.Action>, t: D.State)
    requires P.Reachable(u, s) && Consumer.Leads(s.tail.log, w, s.delivery, actions, t)
    ensures P.Reachable(u, s.(delivery := t))
    ensures P.ReachableWithoutDeletion(u, s) ==> P.ReachableWithoutDeletion(u, s.(delivery := t))
    decreases |actions|
  {
    hide D.Enabled, D.Do, P.Enabled, P.Do, P.Reachable, P.ReachableWithoutDeletion;
    if actions == [] {
      assert s.(delivery := t) == s;
    } else {
      DeliveryStep(u, s, actions[0]);
      StepStaysReachable(u, s, P.Deliver(actions[0]));
      if P.ReachableWithoutDeletion(u, s) {
        StepStaysReachableWithoutDeletion(u, s, P.Deliver(actions[0]));
      }
      var next := s.(delivery := D.Do(s.tail.log, s.delivery, actions[0]));
      ConsumerStaysReachable(u, w, next, actions[1..], t);
      assert next.(delivery := t) == s.(delivery := t);
    }
  }
}
