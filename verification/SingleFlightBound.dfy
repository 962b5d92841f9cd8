/**
 * How often a key can be computed under one generation, all computations
 * counted: which of them escape the first count, and why there is at most one.
 */
module SingleFlightBound {
  import opened Basics
  import opened SingleFlightRuns

  // ----- which computations are uncounted -----

  /** Step `h` is the read at which thread `t` missed; it has computed since, under the lease it had. */
  ghost predicate MissedAt(states: seq<World>, actions: seq<Action>, h: nat, i: nat, t: nat)
    requires i < |states| && i <= |actions|
  {
    && h < i && actions[h] == Read(t, false) && t in states[h].threads && states[h].threads[t].Reading?
    && t in states[i].threads && states[i].threads[t].Computing?
    && states[i].threads[t].lease == states[h].threads[t].lease && states[h].threads[t].lease.key !in states[h].cache
    && (states[i].threads[t].current <==> states[h].threads[t].lease.generation == states[h].reg.generation)
  }

  /** The world differs in one thread's program counter only, as far as threads go. */
  predicate Advances(w: World, w': World, t: nat) {
    t in w'.threads && w'.threads == w.threads[t := w'.threads[t]]
  }

  lemma ReadAdvances(w: World, t: nat, fails: bool)
    requires Enabled(w, Read(t, fails))
    ensures Advances(w, DoRead(w, t, fails), t)
  {
  }

  lemma ComputeAdvances(w: World, t: nat, result: Option<nat>)
    requires Enabled(w, Compute(t, result))
    ensures Advances(w, DoCompute(w, t, result), t)
  {
  }

  lemma PublishAdvances(w: World, t: nat, fails: bool)
    requires Enabled(w, Publish(t, fails))
    ensures Advances(w, DoPublish(w, t, fails), t)
  {
  }

  lemma FinishAdvances(w: World, t: nat)
    requires Enabled(w, Finish(t))
    ensures Advances(w, DoFinish(w, t), t)
  {
  }

  /** An action changes the program counter of its own thread only. */
  lemma OthersStay(maxEntries: nat, w: World, a: Action, t: nat)
    requires Enabled(w, a) && (a.Clear? || a.Forget? || a.t != t) && t in Apply(maxEntries, w, a).threads
    ensures t in w.threads && Apply(maxEntries, w, a).threads[t] == w.threads[t]
  {
    match a
    case Begin(u, key) => BeginShape(maxEntries, w, u, key);
    case Read(u, fails) => ReadAdvances(w, u, fails);
    case Compute(u, result) => ComputeAdvances(w, u, result);
    case Publish(u, fails) => PublishAdvances(w, u, fails);
    case Finish(u) => FinishAdvances(w, u);
    case Wake(u) =>
    case Timeout(u) =>
    case Release(u) =>
    case Clear(_) =>
    case Forget(_) =>
  }

  /** Only a read that misses makes a thread compute. */
  lemma StartsComputing(maxEntries: nat, w: World, a: Action)
    requires Enabled(w, a) && !a.Clear? && !a.Forget? && a.t in Apply(maxEntries, w, a).threads
    requires Apply(maxEntries, w, a).threads[a.t].Computing?
    ensures a.Read? && !a.fails && w.threads[a.t].lease.key !in w.cache
    ensures Apply(maxEntries, w, a).threads[a.t] == Computing(w.threads[a.t].lease, w.threads[a.t].lease.generation == w.reg.generation)
  {
    match a
    case Begin(t, key) => BeginPc(maxEntries, w, t, key);
    case Compute(t, result) => ComputePc(w, t, result);
    case Publish(t, fails) => PublishPc(w, t, fails);
    case Finish(t) => FinishPc(w, t);
    case Read(t, fails) => ReadPc(w, t, fails);
    case Wake(t) =>
    case Timeout(t) =>
    case Release(t) =>
  }

  lemma ReadPc(w: World, t: nat, fails: bool)
    requires Enabled(w, Read(t, fails)) && DoRead(w, t, fails).threads[t].Computing?
    ensures !fails && w.threads[t].lease.key !in w.cache
    ensures DoRead(w, t, fails).threads[t] == Computing(w.threads[t].lease, w.threads[t].lease.generation == w.reg.generation)
  {
  }

  lemma ComputePc(w: World, t: nat, result: Option<nat>)
    requires Enabled(w, Compute(t, result))
    ensures var pc := DoCompute(w, t, result).threads[t]; pc.Finishing? || pc.Publishing?
  {
  }

  lemma PublishPc(w: World, t: nat, fails: bool)
    requires Enabled(w, Publish(t, fails))
    ensures DoPublish(w, t, fails).threads[t].Finishing?
  {
  }

  lemma FinishPc(w: World, t: nat)
    requires Enabled(w, Finish(t))
    ensures var pc := DoFinish(w, t).threads[t]; pc.Releasing? || pc.Done?
  {
  }

  lemma BeginPc(maxEntries: nat, w: World, t: nat, key: string)
    ensures var pc := DoBegin(maxEntries, w, t, key).threads[t]; pc.Reading? || pc.Waiting?
  {
  }

  lemma {:induction false} Missed(maxEntries: nat, states: seq<World>, actions: seq<Action>, i: nat, t: nat) returns (h: nat)
    requires Run(maxEntries, states, actions) && i <= |actions| && t in states[i].threads && states[i].threads[t].Computing?
    ensures MissedAt(states, actions, h, i, t)
  {
    assert i > 0;
    var a := actions[i - 1];
    assert Follows(maxEntries, states[i - 1], a, states[i]);
    if a.Clear? || a.Forget? || a.t != t {
      OthersStay(maxEntries, states[i - 1], a, t);
      h := Missed(maxEntries, states, actions, i - 1, t);
    } else {
      StartsComputing(maxEntries, states[i - 1], a);
      h := i - 1;
    }
  }

  /**
   * A computation is left out of the first count if and only if its owner
   * re-read, and missed, after the generation of its lease had ended: that is,
   * a clear came between its reservation and its second look at the cache.
   */
  lemma UncountedIffLateMiss(maxEntries: nat, states: seq<World>, actions: seq<Action>, i: nat) returns (h: nat)
    requires Run(maxEntries, states, actions) && i < |actions| && actions[i].Compute? && actions[i].result.Some?
    ensures var t := actions[i].t;
            && MissedAt(states, actions, h, i, t)
            && var lease := states[h].threads[t].lease;
               && (states[h].reg.generation != lease.generation <==>
                   Count(states[i + 1].overtaken, lease.key, lease.generation) == Count(states[i].overtaken, lease.key, lease.generation) + 1)
               && (states[h].reg.generation == lease.generation <==>
                   Count(states[i + 1].computed, lease.key, lease.generation) == Count(states[i].computed, lease.key, lease.generation) + 1)
  {
    assert Follows(maxEntries, states[i], actions[i], states[i + 1]);
    h := Missed(maxEntries, states, actions, i, actions[i].t);
  }

  // ----- at most one of them -----

  /** Both are unfinished owners under one lease generation of one key. */
  predicate SameOwnership(a: Pc, b: Pc) {
    && Unfinished(a) && a.lease.owner && Unfinished(b) && b.lease.owner
    && a.lease.key == b.lease.key && a.lease.generation == b.lease.generation
  }

  ghost predicate OneOwnerEver(w: World) {
    forall t, u {:trigger w.threads[t], w.threads[u]} :: t in w.threads && u in w.threads && SameOwnership(w.threads[t], w.threads[u]) ==> t == u
  }

  /** The owner may still compute the key under this generation. */
  predicate MayCompute(pc: Pc, key: string, generation: nat) {
    (pc.Reading? || pc.Computing?) && pc.lease.owner && pc.lease.key == key && pc.lease.generation == generation
  }

  /** Once a late computation has happened, the generation is over and nobody is left to make another. */
  ghost predicate SpentOk(w: World, key: string, generation: nat) {
    var late := Count(w.overtaken, key, generation);
    late == 0 || (late == 1 && generation < w.reg.generation && forall t :: t in w.threads ==> !MayCompute(w.threads[t], key, generation))
  }

  ghost predicate LateInv(w: World) {
    !w.saturated ==> OneOwnerEver(w) && forall key: string, generation: nat :: SpentOk(w, key, generation)
  }

  /** One thread moves on under its lease, and nothing late is computed. */
  lemma LateMoves(w: World, w': World, t: nat)
    requires LateInv(w) && w'.overtaken == w.overtaken && w'.reg.generation >= w.reg.generation && w'.saturated == w.saturated
    requires t in w.threads && t in w'.threads && w'.threads == w.threads[t := w'.threads[t]]
    requires Unfinished(w'.threads[t]) && w'.threads[t].lease.owner ==> Unfinished(w.threads[t]) && w'.threads[t].lease == w.threads[t].lease
    requires w'.threads[t].Reading? || w'.threads[t].Computing? ==>
               !w'.threads[t].lease.owner || w.threads[t].Reading? || w.threads[t].Computing?
    ensures LateInv(w')
  {
    if !w'.saturated {
      OwnersMove(w, w', t);
      forall key: string, generation: nat ensures SpentOk(w', key, generation) {
        assert SpentOk(w, key, generation);
      }
    }
  }

  lemma OwnersMove(w: World, w': World, t: nat)
    requires OneOwnerEver(w) && t in w.threads && t in w'.threads && w'.threads == w.threads[t := w'.threads[t]]
    requires Unfinished(w'.threads[t]) && w'.threads[t].lease.owner ==> Unfinished(w.threads[t]) && w'.threads[t].lease == w.threads[t].lease
    ensures OneOwnerEver(w')
  {
    forall x, y | x in w'.threads && y in w'.threads && SameOwnership(w'.threads[x], w'.threads[y]) ensures x == y {
      assert SameOwnership(w.threads[x], w.threads[y]);
    }
  }

  lemma LateSame(w: World, w': World)
    requires LateInv(w) && w'.overtaken == w.overtaken && w'.reg.generation >= w.reg.generation && w'.saturated == w.saturated
    requires w'.threads == w.threads
    ensures LateInv(w')
  {
    if !w'.saturated {
      forall key: string, generation: nat ensures SpentOk(w', key, generation) {
        assert SpentOk(w, key, generation);
      }
    }
  }

  lemma LateBegin(maxEntries: nat, w: World, t: nat, key: string)
    requires RegistryInv(maxEntries, w) && LateInv(w) && t !in w.threads
    ensures LateInv(DoBegin(maxEntries, w, t, key))
  {
    var w' := DoBegin(maxEntries, w, t, key);
    if !w'.saturated {
      BeginShape(maxEntries, w, t, key);
      forall x, y | x in w'.threads && y in w'.threads && SameOwnership(w'.threads[x], w'.threads[y]) ensures x == y {
        if x != t && y != t {
          assert SameOwnership(w.threads[x], w.threads[y]);
        } else if x != t {
          NoRival(maxEntries, w, x, w'.threads[t]);
        } else if y != t {
          NoRival(maxEntries, w, y, w'.threads[t]);
        }
      }
      forall k: string, generation: nat ensures SpentOk(w', k, generation) {
        assert SpentOk(w, k, generation);
      }
    }
  }

  lemma BeginShape(maxEntries: nat, w: World, t: nat, key: string)
    requires t !in w.threads
    ensures var w' := DoBegin(maxEntries, w, t, key);
            && t in w'.threads && w'.threads == w.threads[t := w'.threads[t]] && w'.reg.generation == w.reg.generation
            && w'.overtaken == w.overtaken && (w.saturated ==> w'.saturated)
            && (Unfinished(w'.threads[t]) && w'.threads[t].lease.owner ==>
                  w'.threads[t].lease.generation == w.reg.generation && w'.threads[t].lease.key !in w.reg.inflight)
            && (w'.threads[t].Reading? ==> w'.threads[t].lease.owner)
  {
  }

  /** A new owner has no rival: an unfinished owner of the current generation would be registered. */
  lemma NoRival(maxEntries: nat, w: World, u: nat, pc: Pc)
    requires RegistryInv(maxEntries, w) && !w.saturated && u in w.threads && Unfinished(pc) && pc.lease.owner
    requires pc.lease.generation == w.reg.generation && pc.lease.key !in w.reg.inflight
    ensures !SameOwnership(w.threads[u], pc) && !SameOwnership(pc, w.threads[u])
  {
    assert ThreadOk(w, u);
  }

  lemma LateWake(maxEntries: nat, w: World, t: nat, pc: Pc)
    requires RegistryInv(maxEntries, w) && LateInv(w) && t in w.threads && w.threads[t].Waiting?
    requires pc == Reading(w.threads[t].lease) || pc == Finishing(w.threads[t].lease)
    ensures LateInv(Go(w, t, pc))
  {
    WaiterOwnsNothing(maxEntries, w, t);
    LateMoves(w, Go(w, t, pc), t);
  }

  lemma WaiterOwnsNothing(maxEntries: nat, w: World, t: nat)
    requires RegistryInv(maxEntries, w) && t in w.threads
    ensures w.threads[t].Waiting? ==> !w.threads[t].lease.owner
    ensures w.threads[t].Computing? ==> w.threads[t].lease.owner
  {
    assert ThreadOk(w, t);
  }

  lemma LateRead(w: World, t: nat, fails: bool)
    requires LateInv(w) && Enabled(w, Read(t, fails))
    ensures LateInv(DoRead(w, t, fails))
  {
    LateMoves(w, DoRead(w, t, fails), t);
  }

  lemma LateRelease(maxEntries: nat, w: World, t: nat)
    requires LateInv(w) && Enabled(w, Release(t))
    ensures LateInv(Apply(maxEntries, w, Release(t)))
  {
    LateMoves(w, Apply(maxEntries, w, Release(t)), t);
  }

  lemma LateCompute(maxEntries: nat, w: World, t: nat, result: Option<nat>)
    requires RegistryInv(maxEntries, w) && LateInv(w) && CacheInv(w) && Enabled(w, Compute(t, result))
    ensures LateInv(DoCompute(w, t, result))
  {
    WaiterOwnsNothing(maxEntries, w, t);
    LateComputed(w, t, result);
  }

  lemma LateComputed(w: World, t: nat, result: Option<nat>)
    requires LateInv(w) && CacheInv(w) && Enabled(w, Compute(t, result)) && w.threads[t].lease.owner
    ensures LateInv(DoCompute(w, t, result))
  {
    var w' := DoCompute(w, t, result);
    var lease := w.threads[t].lease;
    if w.threads[t].current || result.None? {
      LateMoves(w, w', t);
    } else if !w.saturated {
      OwnersMove(w, w', t);
      assert Overtaken(w.threads[t]);
      forall key: string, generation: nat ensures SpentOk(w', key, generation) {
        assert SpentOk(w, key, generation);
        if key == lease.key && generation == lease.generation {
          assert MayCompute(w.threads[t], key, generation);
          NobodyElse(w, w', t);
        }
      }
    }
  }

  lemma NobodyElse(w: World, w': World, t: nat)
    requires OneOwnerEver(w) && t in w.threads && w.threads[t].Computing? && w.threads[t].lease.owner
    requires t in w'.threads && w'.threads == w.threads[t := w'.threads[t]] && w'.threads[t].Publishing?
    ensures forall u :: u in w'.threads ==> !MayCompute(w'.threads[u], w.threads[t].lease.key, w.threads[t].lease.generation)
  {
    forall u | u in w'.threads ensures !MayCompute(w'.threads[u], w.threads[t].lease.key, w.threads[t].lease.generation) {
      assert u != t ==> !SameOwnership(w.threads[u], w.threads[t]);
    }
  }

  lemma LateStep(maxEntries: nat, w: World, a: Action)
    requires Inv(maxEntries, w) && LateInv(w) && Enabled(w, a)
    ensures LateInv(Apply(maxEntries, w, a))
  {
    match a
    case Begin(t, key) => LateBegin(maxEntries, w, t, key);
    case Wake(t) => LateWake(maxEntries, w, t, Reading(w.threads[t].lease));
    case Timeout(t) => LateWake(maxEntries, w, t, Finishing(w.threads[t].lease));
    case Read(t, fails) => LateRead(w, t, fails);
    case Compute(t, result) => LateCompute(maxEntries, w, t, result);
    case Publish(t, fails) => LatePublish(w, t, fails);
    case Finish(t) => LateFinish(w, t);
    case Release(t) => LateRelease(maxEntries, w, t);
    case Clear(clears) => LateSame(w, DoClear(w, clears));
    case Forget(key) => LateForget(maxEntries, w, key);
  }

  lemma LatePublish(w: World, t: nat, fails: bool)
    requires LateInv(w) && Enabled(w, Publish(t, fails))
    ensures LateInv(DoPublish(w, t, fails))
  {
    LateMoves(w, DoPublish(w, t, fails), t);
  }

  lemma LateFinish(w: World, t: nat)
    requires LateInv(w) && Enabled(w, Finish(t))
    ensures LateInv(DoFinish(w, t))
  {
    LateMoves(w, DoFinish(w, t), t);
  }

  lemma LateForget(maxEntries: nat, w: World, key: string)
    requires LateInv(w) && key in w.cache
    ensures LateInv(Apply(maxEntries, w, Forget(key)))
  {
    LateSame(w, Apply(maxEntries, w, Forget(key)));
  }

  lemma LateFollows(maxEntries: nat, w: World, a: Action, w': World)
    requires Inv(maxEntries, w) && LateInv(w) && Follows(maxEntries, w, a, w')
    ensures LateInv(w')
  {
    LateStep(maxEntries, w, a);
  }

  lemma LateNext(maxEntries: nat, states: seq<World>, actions: seq<Action>, i: nat)
    requires maxEntries >= 1 && Run(maxEntries, states, actions) && i < |actions| && LateInv(states[i])
    ensures LateInv(states[i + 1])
  {
    InvAlways(maxEntries, states, actions, i);
    LateFollows(maxEntries, states[i], actions[i], states[i + 1]);
  }

  lemma {:induction false} LateAlways(maxEntries: nat, states: seq<World>, actions: seq<Action>, i: nat)
    requires maxEntries >= 1 && Run(maxEntries, states, actions) && i <= |actions|
    ensures LateInv(states[i])
  {
    if i > 0 {
      LateAlways(maxEntries, states, actions, i - 1);
      LateNext(maxEntries, states, actions, i - 1);
    }
  }

  /**
   * All computations of a key under one generation, in every reachable state of
   * a never saturated registry: at most one of them follows a late miss, and
   * together they are at most two, apart from values the cache lost.
   */
  lemma ComputedAtMostTwice(maxEntries: nat, states: seq<World>, actions: seq<Action>, i: nat, key: string, generation: nat)
    requires maxEntries >= 1 && Run(maxEntries, states, actions) && i <= |actions| && !states[i].saturated
    ensures Count(states[i].overtaken, key, generation) <= 1
    ensures Count(states[i].computed, key, generation) + Count(states[i].overtaken, key, generation) <=
            2 + Count(states[i].dropped, key, generation)
  {
    LateAlways(maxEntries, states, actions, i);
    assert SpentOk(states[i], key, generation);
    ComputedAtMostOnce(maxEntries, states, actions, i, key, generation);
  }

  // ----- when the registry is full -----

  /** A call that finds its key absent while as many other keys as are allowed are registered. */
  predicate FoundFull(maxEntries: nat, w: World, a: Action) {
    a.Begin? && a.key !in w.reg.inflight && |w.reg.inflight| == maxEntries
  }

  lemma SaturatedStep(maxEntries: nat, w: World, a: Action)
    requires RegistryInv(maxEntries, w) && Enabled(w, a)
    ensures Apply(maxEntries, w, a).saturated <==> w.saturated || FoundFull(maxEntries, w, a)
  {
    match a
    case Begin(t, key) => BeginSaturates(maxEntries, w, t, key);
    case Read(t, fails) => SaturatedRead(w, t, fails);
    case Compute(t, result) => SaturatedCompute(w, t, result);
    case Publish(t, fails) => SaturatedPublish(w, t, fails);
    case Finish(t) => SaturatedFinish(w, t);
    case Wake(_) =>
    case Timeout(_) =>
    case Release(_) =>
    case Clear(_) =>
    case Forget(_) =>
  }

  lemma BeginSaturates(maxEntries: nat, w: World, t: nat, key: string)
    requires |w.reg.inflight| <= maxEntries
    ensures DoBegin(maxEntries, w, t, key).saturated <==> w.saturated || FoundFull(maxEntries, w, Begin(t, key))
  {
  }

  lemma SaturatedRead(w: World, t: nat, fails: bool)
    requires Enabled(w, Read(t, fails))
    ensures DoRead(w, t, fails).saturated == w.saturated
  {
  }

  lemma SaturatedCompute(w: World, t: nat, result: Option<nat>)
    requires Enabled(w, Compute(t, result))
    ensures DoCompute(w, t, result).saturated == w.saturated
  {
  }

  lemma SaturatedPublish(w: World, t: nat, fails: bool)
    requires Enabled(w, Publish(t, fails))
    ensures DoPublish(w, t, fails).saturated == w.saturated
  {
  }

  lemma SaturatedFinish(w: World, t: nat)
    requires Enabled(w, Finish(t))
    ensures DoFinish(w, t).saturated == w.saturated
  {
  }

  lemma SaturatedFollows(maxEntries: nat, w: World, a: Action, w': World)
    requires RegistryInv(maxEntries, w) && Follows(maxEntries, w, a, w')
    ensures w'.saturated <==> w.saturated || FoundFull(maxEntries, w, a)
  {
    SaturatedStep(maxEntries, w, a);
  }

  lemma SaturatedNext(maxEntries: nat, states: seq<World>, actions: seq<Action>, i: nat)
    requires maxEntries >= 1 && Run(maxEntries, states, actions) && i < |actions|
    ensures states[i + 1].saturated <==> states[i].saturated || FoundFull(maxEntries, states[i], actions[i])
  {
    InvAlways(maxEntries, states, actions, i);
    SaturatedFollows(maxEntries, states[i], actions[i], states[i + 1]);
  }

  /** Some call before state `i` found the registry full. */
  ghost predicate FullBefore(maxEntries: nat, states: seq<World>, actions: seq<Action>, i: nat)
    requires i <= |actions| && |states| == |actions| + 1
  {
    exists k :: 0 <= k < i && FoundFull(maxEntries, states[k], actions[k])
  }

  lemma FullNext(maxEntries: nat, states: seq<World>, actions: seq<Action>, i: nat)
    requires i < |actions| && |states| == |actions| + 1
    ensures FullBefore(maxEntries, states, actions, i + 1) <==>
            FullBefore(maxEntries, states, actions, i) || FoundFull(maxEntries, states[i], actions[i])
  {
    if FullBefore(maxEntries, states, actions, i) {
      var k :| 0 <= k < i && FoundFull(maxEntries, states[k], actions[k]);
    }
  }

  /**
   * The registry counts as saturated if and only if some earlier call found all
   * of its places taken by other keys.
   */
  lemma {:induction false} SaturatedIff(maxEntries: nat, states: seq<World>, actions: seq<Action>, i: nat)
    requires maxEntries >= 1 && Run(maxEntries, states, actions) && i <= |actions|
    ensures states[i].saturated <==> FullBefore(maxEntries, states, actions, i)
  {
    if i > 0 {
      SaturatedIff(maxEntries, states, actions, i - 1);
      SaturatedNext(maxEntries, states, actions, i - 1);
      FullNext(maxEntries, states, actions, i - 1);
    }
  }
}
