/**
 * No waiter waits for ever: its owner can always move on, and after five steps
 * of the owner the event is set, whatever all other threads do in between.
 */
module SingleFlightRelease {
  import opened Basics
  import opened SingleFlight
  import opened SingleFlightRuns
  import SingleFlightBound

  predicate OwnStep(a: Action, o: nat) {
    !a.Clear? && !a.Forget? && a.t == o
  }

  function StepsLeft(pc: Pc): nat {
    match pc
    case Waiting(_) => 6
    case Reading(_) => 5
    case Computing(_, _) => 4
    case Publishing(_, _, _) => 3
    case Finishing(_) => 2
    case Releasing(_) => 1
    case Done => 0
  }

  /** The steps the creator of an event has at most still to take before the event is set. */
  function Distance(w: World, lease: Lease): nat {
    if lease.event in w.reg.signaled || lease.event !in w.owner || w.owner[lease.event] !in w.threads then 0
    else StepsLeft(w.threads[w.owner[lease.event]])
  }

  /** The event is set, or its creator `o` is closer to setting it. */
  predicate Closer(w: World, o: nat, w': World, lease: Lease)
    requires o in w.threads
  {
    || lease.event in w'.reg.signaled
    || (w'.owner == w.owner && o in w'.threads && StepsLeft(w'.threads[o]) < StepsLeft(w.threads[o]))
  }

  // ----- the owner's own steps -----

  lemma ReadCloser(w: World, o: nat, fails: bool, lease: Lease)
    requires Enabled(w, Read(o, fails))
    ensures Closer(w, o, DoRead(w, o, fails), lease)
  {
  }

  lemma ComputeCloser(w: World, o: nat, result: Option<nat>, lease: Lease)
    requires Enabled(w, Compute(o, result))
    ensures Closer(w, o, DoCompute(w, o, result), lease)
  {
  }

  lemma PublishCloser(w: World, o: nat, fails: bool, lease: Lease)
    requires Enabled(w, Publish(o, fails))
    ensures Closer(w, o, DoPublish(w, o, fails), lease)
  {
  }

  lemma FinishCloser(w: World, o: nat, lease: Lease)
    requires Enabled(w, Finish(o))
    ensures Closer(w, o, DoFinish(w, o), lease)
  {
  }

  lemma ReleaseCloser(maxEntries: nat, w: World, o: nat, lease: Lease)
    requires Enabled(w, Release(o))
    ensures Closer(w, o, Apply(maxEntries, w, Release(o)), lease)
  {
  }

  /** Whatever the owner does next, and whether it fails or not, it is closer to setting the event. */
  lemma OwnerCloser(maxEntries: nat, w: World, a: Action, lease: Lease)
    requires Looked(w, lease) && lease.event !in w.reg.signaled && Enabled(w, a) && OwnStep(a, w.owner[lease.event])
    ensures Closer(w, w.owner[lease.event], Apply(maxEntries, w, a), lease)
  {
    match a
    case Read(o, fails) => ReadCloser(w, o, fails, lease);
    case Compute(o, result) => ComputeCloser(w, o, result, lease);
    case Publish(o, fails) => PublishCloser(w, o, fails, lease);
    case Finish(o) => FinishCloser(w, o, lease);
    case Release(o) => ReleaseCloser(maxEntries, w, o, lease);
    case Begin(_, _) =>
    case Wake(_) =>
    case Timeout(_) =>
  }

  /** No deadlock: the creator of an event that is not set yet always has a step to take. */
  lemma OwnerCanMove(w: World, lease: Lease) returns (a: Action)
    requires Looked(w, lease) && lease.event !in w.reg.signaled
    ensures OwnStep(a, w.owner[lease.event]) && Enabled(w, a) && 1 <= Distance(w, lease) <= 5
  {
    var o := w.owner[lease.event];
    match w.threads[o]
    case Reading(_) => a := Read(o, true);
    case Computing(_, _) => a := Compute(o, None);
    case Publishing(_, _, _) => a := Publish(o, true);
    case Finishing(_) => a := Finish(o);
    case Releasing(_) => a := Release(o);
  }

  // ----- everybody else's steps -----

  /** Threads, owners of events and set events are never taken back. */
  lemma Keeps(maxEntries: nat, w: World, a: Action)
    requires RegistryInv(maxEntries, w) && Enabled(w, a)
    ensures var w' := Apply(maxEntries, w, a);
            && w.threads.Keys <= w'.threads.Keys && w.reg.signaled <= w'.reg.signaled
            && forall e :: e in w.owner ==> e in w'.owner && w'.owner[e] == w.owner[e]
  {
    match a
    case Begin(t, key) => BeginAdds(maxEntries, w, t, key);
    case Read(t, fails) => ReadAdds(w, t, fails);
    case Compute(t, result) => ComputeAdds(w, t, result);
    case Publish(t, fails) => PublishAdds(w, t, fails);
    case Finish(t) => FinishAdds(w, t);
    case Wake(_) =>
    case Timeout(_) =>
    case Release(_) =>
    case Clear(_) =>
    case Forget(_) =>
  }

  lemma BeginAdds(maxEntries: nat, w: World, t: nat, key: string)
    requires RegistryInv(maxEntries, w) && t !in w.threads
    ensures var w' := DoBegin(maxEntries, w, t, key);
            && w.threads.Keys <= w'.threads.Keys && w.reg.signaled <= w'.reg.signaled
            && forall e :: e in w.owner ==> e in w'.owner && w'.owner[e] == w.owner[e]
  {
    BeginExtends(maxEntries, w, t, key);
  }

  lemma ReadAdds(w: World, t: nat, fails: bool)
    requires Enabled(w, Read(t, fails))
    ensures var w' := DoRead(w, t, fails); w'.owner == w.owner && w.threads.Keys <= w'.threads.Keys && w'.reg == w.reg
  {
  }

  lemma ComputeAdds(w: World, t: nat, result: Option<nat>)
    requires Enabled(w, Compute(t, result))
    ensures var w' := DoCompute(w, t, result); w'.owner == w.owner && w.threads.Keys <= w'.threads.Keys && w'.reg == w.reg
  {
  }

  lemma PublishAdds(w: World, t: nat, fails: bool)
    requires Enabled(w, Publish(t, fails))
    ensures var w' := DoPublish(w, t, fails); w'.owner == w.owner && w.threads.Keys <= w'.threads.Keys && w'.reg == w.reg
  {
  }

  lemma FinishAdds(w: World, t: nat)
    requires Enabled(w, Finish(t))
    ensures var w' := DoFinish(w, t); w'.owner == w.owner && w.threads.Keys <= w'.threads.Keys && w'.reg.signaled == w.reg.signaled
  {
  }

  /** Every step leaves the distance as it is, and a step of the owner makes it smaller. */
  lemma DistanceStep(maxEntries: nat, w: World, a: Action, lease: Lease)
    requires RegistryInv(maxEntries, w) && Looked(w, lease) && lease.event !in w.reg.signaled && Enabled(w, a)
    ensures var w' := Apply(maxEntries, w, a);
            || lease.event in w'.reg.signaled
            || (&& lease.event in w'.owner && w'.owner[lease.event] == w.owner[lease.event]
                && Distance(w', lease) + (if OwnStep(a, w.owner[lease.event]) then 1 else 0) <= Distance(w, lease))
  {
    Keeps(maxEntries, w, a);
    if OwnStep(a, w.owner[lease.event]) {
      OwnerCloser(maxEntries, w, a, lease);
    } else {
      SingleFlightBound.OthersStay(maxEntries, w, a, w.owner[lease.event]);
    }
  }

  // ----- runs -----

  /** How many of the actions from `i` to `j` are steps of thread `o`. */
  function OwnSteps(actions: seq<Action>, o: nat, i: nat, j: nat): nat
    requires i <= j <= |actions|
  {
    if i == j then 0 else OwnSteps(actions, o, i, j - 1) + (if OwnStep(actions[j - 1], o) then 1 else 0)
  }

  ghost predicate Waits(states: seq<World>, actions: seq<Action>, i: nat, j: nat, t: nat) {
    && i <= j <= |actions| && i < |states| && t in states[i].threads && states[i].threads[t].Waiting?
    && forall k :: i <= k < j ==> !OwnStep(actions[k], t)
  }

  lemma OthersKeepWaiter(maxEntries: nat, w: World, a: Action, w': World, t: nat)
    requires RegistryInv(maxEntries, w) && Follows(maxEntries, w, a, w') && !OwnStep(a, t) && t in w.threads
    ensures t in w'.threads && w'.threads[t] == w.threads[t]
  {
    Keeps(maxEntries, w, a);
    SingleFlightBound.OthersStay(maxEntries, w, a, t);
  }

  lemma {:induction false} StillWaiting(maxEntries: nat, states: seq<World>, actions: seq<Action>, i: nat, j: nat, t: nat)
    requires maxEntries >= 1 && Run(maxEntries, states, actions) && Waits(states, actions, i, j, t)
    ensures t in states[j].threads && states[j].threads[t] == states[i].threads[t]
  {
    if i < j {
      StillWaiting(maxEntries, states, actions, i, j - 1, t);
      InvAlways(maxEntries, states, actions, j - 1);
      OthersKeepWaiter(maxEntries, states[j - 1], actions[j - 1], states[j], t);
    }
  }

  /**
   * While a thread waits, and whatever all threads do, its event is set at the
   * latest with the fifth step of the thread that created it.
   */
  lemma OwnerReleases(maxEntries: nat, states: seq<World>, actions: seq<Action>, i: nat, j: nat, t: nat)
    requires maxEntries >= 1 && Run(maxEntries, states, actions) && Waits(states, actions, i, j, t)
    ensures var event := states[i].threads[t].lease.event;
            && event in states[i].owner
            && (OwnSteps(actions, states[i].owner[event], i, j) >= 5 ==> event in states[j].reg.signaled)
  {
    var lease := states[i].threads[t].lease;
    WaitersLookedAfter(maxEntries, states, actions, i, t);
    InvAlways(maxEntries, states, actions, i);
    assert ThreadOk(states[i], t);
    Approaches(maxEntries, states, actions, i, j, t);
    if lease.event !in states[j].reg.signaled {
      StillWaiting(maxEntries, states, actions, i, j, t);
      WaitersLookedAfter(maxEntries, states, actions, j, t);
      var _ := OwnerCanMove(states[j], lease);
      DistanceBound(states[i], lease);
    }
  }

  lemma DistanceBound(w: World, lease: Lease)
    requires Looked(w, lease)
    ensures Distance(w, lease) <= 5
  {
    if lease.event !in w.reg.signaled {
      var _ := OwnerCanMove(w, lease);
    }
  }

  lemma {:induction false} Approaches(maxEntries: nat, states: seq<World>, actions: seq<Action>, i: nat, j: nat, t: nat)
    requires maxEntries >= 1 && Run(maxEntries, states, actions) && Waits(states, actions, i, j, t)
    requires states[i].threads[t].lease.event in states[i].owner
    ensures var lease := states[i].threads[t].lease;
            || lease.event in states[j].reg.signaled
            || (&& lease.event in states[j].owner && states[j].owner[lease.event] == states[i].owner[lease.event]
                && OwnSteps(actions, states[i].owner[lease.event], i, j) + Distance(states[j], lease) <= Distance(states[i], lease))
  {
    if i < j {
      var lease := states[i].threads[t].lease;
      Approaches(maxEntries, states, actions, i, j - 1, t);
      StillWaiting(maxEntries, states, actions, i, j - 1, t);
      WaitersLookedAfter(maxEntries, states, actions, j - 1, t);
      InvAlways(maxEntries, states, actions, j - 1);
      assert Follows(maxEntries, states[j - 1], actions[j - 1], states[j]);
      if lease.event in states[j - 1].reg.signaled {
        Keeps(maxEntries, states[j - 1], actions[j - 1]);
      } else {
        DistanceStep(maxEntries, states[j - 1], actions[j - 1], lease);
      }
    }
  }
}
