/**
 * Every interleaving of `run_cached` and `clear`: each thread has a program
 * counter, and each critical section and each cache access is one step. The
 * ghost counters of `World` record what happened to each (key, generation).
 */
module SingleFlightRuns {
  import opened Basics
  import opened SingleFlight

  /** Where a thread is inside `run_cached`. */
  datatype Pc =
    | Waiting(lease: Lease)
    | Reading(lease: Lease)
    | Computing(lease: Lease, current: bool)
    | Publishing(lease: Lease, current: bool, value: nat)
    | Finishing(lease: Lease)
    | Releasing(lease: Lease)
    | Done

  /** A cached value and the generation it was computed under. */
  datatype Cached = Cached(value: nat, generation: nat)

  type Tally = map<(string, nat), nat>

  function Count(t: Tally, key: string, generation: nat): nat {
    if (key, generation) in t then t[(key, generation)] else 0
  }

  function Bump(t: Tally, key: string, generation: nat): Tally {
    t[(key, generation) := Count(t, key, generation) + 1]
  }

  /**
   * `computed` counts successful computations whose cache miss was seen while
   * the lease's generation was current, `overtaken` those whose miss was seen
   * after a clear, `dropped` the values lost because the cache refused or
   * forgot them. `owner` remembers the thread that created an event, `clean`
   * the last generation whose clear emptied the cache.
   */
  datatype World = World(
    reg: Registry, cache: map<string, Cached>, threads: map<nat, Pc>, owner: map<nat, nat>,
    computed: Tally, overtaken: Tally, dropped: Tally, saturated: bool, clean: nat)

  datatype Action =
    | Begin(t: nat, key: string)
    | Wake(t: nat)
    | Timeout(t: nat)
    | Read(t: nat, fails: bool)
    | Compute(t: nat, result: Option<nat>)
    | Publish(t: nat, fails: bool)
    | Finish(t: nat)
    | Release(t: nat)
    | Clear(clears: bool)
    | Forget(key: string)

  ghost predicate Enabled(w: World, a: Action) {
    match a
    case Begin(t, _) => t !in w.threads
    case Wake(t) => t in w.threads && w.threads[t].Waiting? && w.threads[t].lease.event in w.reg.signaled
    case Timeout(t) => t in w.threads && w.threads[t].Waiting?
    case Read(t, _) => t in w.threads && w.threads[t].Reading?
    case Compute(t, _) => t in w.threads && w.threads[t].Computing?
    case Publish(t, _) => t in w.threads && w.threads[t].Publishing?
    case Finish(t) => t in w.threads && w.threads[t].Finishing?
    case Release(t) => t in w.threads && w.threads[t].Releasing?
    case Clear(_) => true
    case Forget(key) => key in w.cache
  }

  function Go(w: World, t: nat, pc: Pc): World {
    w.(threads := w.threads[t := pc])
  }

  function DoBegin(maxEntries: nat, w: World, t: nat, key: string): World {
    var (reg, lease) := Reserved(w.reg, maxEntries, key);
    w.(threads := w.threads[t := if lease.owner then Reading(lease) else Waiting(lease)], reg := reg,
       saturated := w.saturated || !lease.tracked,
       owner := if lease.owner then w.owner[lease.event := t] else w.owner)
  }

  /** Only an owner that misses computes; it remembers whether the generation of its lease was current. */
  function AfterRead(w: World, lease: Lease, fails: bool): Pc {
    if !fails && lease.key !in w.cache && lease.owner then Computing(lease, lease.generation == w.reg.generation) else Finishing(lease)
  }

  function DoRead(w: World, t: nat, fails: bool): World
    requires Enabled(w, Read(t, fails))
  {
    Go(w, t, AfterRead(w, w.threads[t].lease, fails))
  }

  function DoCompute(w: World, t: nat, result: Option<nat>): World
    requires Enabled(w, Compute(t, result))
  {
    var lease, current := w.threads[t].lease, w.threads[t].current;
    if result.None? then Go(w, t, Finishing(lease))
    else
      Go(w, t, Publishing(lease, current, result.value)).(
        computed := if current then Bump(w.computed, lease.key, lease.generation) else w.computed,
        overtaken := if current then w.overtaken else Bump(w.overtaken, lease.key, lease.generation))
  }

  function DoPublish(w: World, t: nat, fails: bool): World
    requires Enabled(w, Publish(t, fails))
  {
    var lease := w.threads[t].lease;
    var done := Go(w, t, Finishing(lease));
    if lease.generation != w.reg.generation then done
    else if fails then done.(dropped := Bump(w.dropped, lease.key, lease.generation))
    else done.(cache := w.cache[lease.key := Cached(w.threads[t].value, lease.generation)])
  }

  function DoFinish(w: World, t: nat): World
    requires Enabled(w, Finish(t))
  {
    var lease := w.threads[t].lease;
    Go(w, t, if Holds(w.reg, lease) then Releasing(lease) else Done).(reg := Unregistered(w.reg, lease))
  }

  function DoClear(w: World, clears: bool): World {
    var reg := Cleared(w.reg);
    w.(reg := reg, cache := if clears then map[] else w.cache, clean := if clears then reg.generation else w.clean)
  }

  function Apply(maxEntries: nat, w: World, a: Action): World
    requires Enabled(w, a)
  {
    match a
    case Begin(t, key) => DoBegin(maxEntries, w, t, key)
    case Wake(t) => Go(w, t, Reading(w.threads[t].lease))
    case Timeout(t) => Go(w, t, Finishing(w.threads[t].lease))
    case Read(t, fails) => DoRead(w, t, fails)
    case Compute(t, result) => DoCompute(w, t, result)
    case Publish(t, fails) => DoPublish(w, t, fails)
    case Finish(t) => DoFinish(w, t)
    case Release(t) => Go(w, t, Done).(reg := Signaled(w.reg, w.threads[t].lease.event))
    case Clear(clears) => DoClear(w, clears)
    case Forget(key) =>
      w.(cache := w.cache - {key}, dropped := Bump(w.dropped, key, w.cache[key].generation))
  }

  const START := World(Registry(0, map[], {}, 0), map[], map[], map[], map[], map[], map[], false, 0)

  // ----- registry invariant: leases, events, waiters -----

  /** Past the reservation and before the locked part of `finish`. */
  predicate Unfinished(pc: Pc) {
    pc.Reading? || pc.Computing? || pc.Publishing? || pc.Finishing?
  }

  ghost predicate LeaseOk(w: World, t: nat, lease: Lease) {
    && lease.event < w.reg.nextEvent && lease.generation <= w.reg.generation
    && lease.event in w.owner
    && (lease.owner ==> w.owner[lease.event] == t)
    && (!lease.owner || !w.saturated ==> lease.tracked)
  }

  /** The thread that created the event is the live, tracked owner of its registration. */
  ghost predicate LiveOwner(w: World, key: string, event: nat) {
    && event in w.owner && w.owner[event] in w.threads
    && var pc := w.threads[w.owner[event]];
       Unfinished(pc) && pc.lease == Lease(key, true, w.reg.generation, true, event)
  }

  ghost predicate PendingRelease(w: World, event: nat) {
    && event in w.owner && w.owner[event] in w.threads
    && var pc := w.threads[w.owner[event]];
       pc.Releasing? && pc.lease.event == event
  }

  ghost predicate Registered(w: World, lease: Lease) {
    lease.key in w.reg.inflight && w.reg.inflight[lease.key] == Entry(w.reg.generation, lease.event)
  }

  /** A waiter is looked after: its event is set, about to be set, or registered with a live owner. */
  ghost predicate Looked(w: World, lease: Lease) {
    || lease.event in w.reg.signaled
    || PendingRelease(w, lease.event)
    || (Registered(w, lease) && LiveOwner(w, lease.key, lease.event))
  }

  ghost predicate ThreadOk(w: World, t: nat)
    requires t in w.threads
  {
    var pc := w.threads[t];
    pc.Done? ||
    (&& LeaseOk(w, t, pc.lease)
     && (pc.Waiting? ==> !pc.lease.owner && Looked(w, pc.lease))
     && (pc.Computing? || pc.Publishing? || pc.Releasing? ==> pc.lease.owner)
     // an unfinished tracked owner of the current generation is registered
     && (Unfinished(pc) && pc.lease.owner && pc.lease.tracked && pc.lease.generation == w.reg.generation ==>
           Registered(w, pc.lease)))
  }

  ghost predicate EntryOk(w: World, key: string)
    requires key in w.reg.inflight
  {
    w.reg.inflight[key].generation == w.reg.generation && LiveOwner(w, key, w.reg.inflight[key].event)
  }

  ghost predicate RegistryInv(maxEntries: nat, w: World) {
    && |w.reg.inflight| <= maxEntries
    && (forall e :: e in w.owner ==> e < w.reg.nextEvent && w.owner[e] in w.threads)
    && (forall t :: t in w.threads ==> ThreadOk(w, t))
    && (forall k :: k in w.reg.inflight ==> EntryOk(w, k))
  }

  /** The capacity of the registry and the care for waiters survive every step. */
  lemma RegistryStep(maxEntries: nat, w: World, a: Action)
    requires maxEntries >= 1 && RegistryInv(maxEntries, w) && Enabled(w, a)
    ensures RegistryInv(maxEntries, Apply(maxEntries, w, a))
  {
    match a
    case Begin(t, key) => RegistryBegin(maxEntries, w, t, key);
    case Finish(t) => RegistryFinish(maxEntries, w, t);
    case Clear(clears) => RegistryClear(maxEntries, w, clears);
    case Release(t) => RegistryRelease(maxEntries, w, t);
    case Forget(key) => RegistryForget(maxEntries, w, key);
    case Wake(t) => RegistryWake(maxEntries, w, t, Reading(w.threads[t].lease));
    case Timeout(t) => RegistryWake(maxEntries, w, t, Finishing(w.threads[t].lease));
    case Read(t, fails) => RegistryRead(maxEntries, w, t, fails);
    case Compute(t, result) => RegistryCompute(maxEntries, w, t, result);
    case Publish(t, fails) => RegistryPublish(maxEntries, w, t, fails);
  }

  lemma RegistryWake(maxEntries: nat, w: World, t: nat, pc': Pc)
    requires RegistryInv(maxEntries, w) && t in w.threads && w.threads[t].Waiting?
    requires pc' == Reading(w.threads[t].lease) || pc' == Finishing(w.threads[t].lease)
    ensures RegistryInv(maxEntries, Go(w, t, pc'))
  {
    Moved(maxEntries, w, Go(w, t, pc'), t, pc');
  }

  lemma RegistryRead(maxEntries: nat, w: World, t: nat, fails: bool)
    requires RegistryInv(maxEntries, w) && Enabled(w, Read(t, fails))
    ensures RegistryInv(maxEntries, DoRead(w, t, fails))
  {
    Moved(maxEntries, w, DoRead(w, t, fails), t, DoRead(w, t, fails).threads[t]);
  }

  lemma RegistryCompute(maxEntries: nat, w: World, t: nat, result: Option<nat>)
    requires RegistryInv(maxEntries, w) && Enabled(w, Compute(t, result))
    ensures RegistryInv(maxEntries, DoCompute(w, t, result))
  {
    assert ThreadOk(w, t);
    Moved(maxEntries, w, DoCompute(w, t, result), t, DoCompute(w, t, result).threads[t]);
  }

  lemma RegistryPublish(maxEntries: nat, w: World, t: nat, fails: bool)
    requires RegistryInv(maxEntries, w) && Enabled(w, Publish(t, fails))
    ensures RegistryInv(maxEntries, DoPublish(w, t, fails))
  {
    Moved(maxEntries, w, DoPublish(w, t, fails), t, DoPublish(w, t, fails).threads[t]);
  }

  lemma RegistryForget(maxEntries: nat, w: World, key: string)
    requires RegistryInv(maxEntries, w) && key in w.cache
    ensures RegistryInv(maxEntries, Apply(maxEntries, w, Forget(key)))
  {
    var w' := Apply(maxEntries, w, Forget(key));
    forall u | u in w'.threads ensures ThreadOk(w', u) {
      assert ThreadOk(w, u);
    }
    forall k | k in w'.reg.inflight ensures EntryOk(w', k) {
      assert EntryOk(w, k);
    }
  }

  lemma RegistryBegin(maxEntries: nat, w: World, t: nat, key: string)
    requires maxEntries >= 1 && RegistryInv(maxEntries, w) && t !in w.threads
    ensures RegistryInv(maxEntries, DoBegin(maxEntries, w, t, key))
  {
    var w' := DoBegin(maxEntries, w, t, key);
    if key in w.reg.inflight {
      assert EntryOk(w, key);
    }
    Newcomer(maxEntries, w, t, key);
    BeginExtends(maxEntries, w, t, key);
    forall u | u in w'.threads ensures ThreadOk(w', u) {
      if u != t {
        assert ThreadOk(w, u);
        Extended(w, w', u);
      }
    }
    BeginEntries(maxEntries, w, t, key);
  }

  lemma BeginExtends(maxEntries: nat, w: World, t: nat, key: string)
    requires t !in w.threads
    requires forall e :: e in w.owner ==> e < w.reg.nextEvent && w.owner[e] in w.threads
    ensures Extends(w, DoBegin(maxEntries, w, t, key))
  {
  }

  lemma BeginEntries(maxEntries: nat, w: World, t: nat, key: string)
    requires maxEntries >= 1 && RegistryInv(maxEntries, w) && t !in w.threads
    ensures var w' := DoBegin(maxEntries, w, t, key);
            && |w'.reg.inflight| <= maxEntries
            && (forall e :: e in w'.owner ==> e < w'.reg.nextEvent && w'.owner[e] in w'.threads)
            && (forall k :: k in w'.reg.inflight ==> EntryOk(w', k))
  {
    var w' := DoBegin(maxEntries, w, t, key);
    if key !in w.reg.inflight && |w.reg.inflight| < maxEntries {
      assert w'.reg.inflight.Keys == w.reg.inflight.Keys + {key};
    }
    forall k | k in w'.reg.inflight ensures EntryOk(w', k) {
      if k in w.reg.inflight {
        assert EntryOk(w, k);
      }
    }
  }

  lemma Newcomer(maxEntries: nat, w: World, t: nat, key: string)
    requires t !in w.threads && (key in w.reg.inflight ==> EntryOk(w, key))
    requires forall e :: e in w.owner ==> e < w.reg.nextEvent && w.owner[e] in w.threads
    ensures ThreadOk(DoBegin(maxEntries, w, t, key), t)
  {
  }

  /** New threads, registrations and events, with nothing else changed. */
  ghost predicate Extends(w: World, w': World) {
    && (forall v :: v in w.threads ==> v in w'.threads && w'.threads[v] == w.threads[v])
    && (forall e :: e in w.owner ==> e in w'.owner && w'.owner[e] == w.owner[e])
    && (forall k :: k in w.reg.inflight ==> k in w'.reg.inflight && w'.reg.inflight[k] == w.reg.inflight[k])
    && w'.reg.generation == w.reg.generation && w'.reg.signaled == w.reg.signaled && w.reg.nextEvent <= w'.reg.nextEvent
    && (w.saturated ==> w'.saturated)
  }

  lemma Extended(w: World, w': World, u: nat)
    requires Extends(w, w') && u in w.threads && ThreadOk(w, u)
    ensures ThreadOk(w', u)
  {
  }

  lemma RegistryFinish(maxEntries: nat, w: World, t: nat)
    requires RegistryInv(maxEntries, w) && Enabled(w, Finish(t))
    ensures RegistryInv(maxEntries, DoFinish(w, t))
  {
    var w' := DoFinish(w, t);
    var lease := w.threads[t].lease;
    assert ThreadOk(w, t);
    if Holds(w.reg, lease) {
      assert w.reg.inflight.Keys == w'.reg.inflight.Keys + {lease.key};
      forall u | u in w'.threads ensures ThreadOk(w', u) {
        assert ThreadOk(w, u);
        if u != t {
          Released(w, w', t, u);
        }
      }
    } else {
      NotHeld(w, t);
      Moved(maxEntries, w, w', t, Done);
    }
    forall k | k in w'.reg.inflight ensures EntryOk(w', k) {
      assert EntryOk(w, k);
    }
  }

  /** An owner that finds its registration gone leaves no one waiting for it. */
  lemma NotHeld(w: World, t: nat)
    requires t in w.threads && ThreadOk(w, t) && w.threads[t].Finishing? && !Holds(w.reg, w.threads[t].lease)
    ensures var lease := w.threads[t].lease;
            !(lease.owner && lease.tracked && lease.generation == w.reg.generation)
  {
  }

  lemma Released(w: World, w': World, t: nat, u: nat)
    requires t in w.threads && u in w.threads && u != t && ThreadOk(w, t) && ThreadOk(w, u)
    requires w.threads[t].Finishing? && Holds(w.reg, w.threads[t].lease)
    requires w'.threads == w.threads[t := Releasing(w.threads[t].lease)] && w'.reg == Unregistered(w.reg, w.threads[t].lease)
    requires w'.owner == w.owner && w'.saturated == w.saturated
    ensures ThreadOk(w', u)
  {
    var lease := w.threads[t].lease;
    var pc := w.threads[u];
    if pc.Waiting? && pc.lease.event == lease.event {
      assert PendingRelease(w', lease.event);
    }
  }

  lemma RegistryRelease(maxEntries: nat, w: World, t: nat)
    requires RegistryInv(maxEntries, w) && Enabled(w, Release(t))
    ensures RegistryInv(maxEntries, Apply(maxEntries, w, Release(t)))
  {
    var w' := Apply(maxEntries, w, Release(t));
    assert ThreadOk(w, t);
    forall u | u in w'.threads ensures ThreadOk(w', u) {
      assert ThreadOk(w, u);
    }
    forall k | k in w'.reg.inflight ensures EntryOk(w', k) {
      assert EntryOk(w, k);
    }
  }

  lemma RegistryClear(maxEntries: nat, w: World, clears: bool)
    requires RegistryInv(maxEntries, w)
    ensures RegistryInv(maxEntries, DoClear(w, clears))
  {
    var w' := DoClear(w, clears);
    forall u | u in w'.threads ensures ThreadOk(w', u) {
      assert ThreadOk(w, u);
    }
  }

  /** Thread `t` advances by itself, without touching the registry. */
  lemma Moved(maxEntries: nat, w: World, w': World, t: nat, pc': Pc)
    requires RegistryInv(maxEntries, w) && t in w.threads && !w.threads[t].Done? && !w.threads[t].Releasing?
    requires w'.reg == w.reg && w'.owner == w.owner && w'.saturated == w.saturated && w'.threads == w.threads[t := pc']
    requires var pc := w.threads[t];
             || (pc'.Done? && !(pc.lease.owner && pc.lease.tracked && pc.lease.generation == w.reg.generation))
             || (Unfinished(pc') && pc'.lease == pc.lease && (pc'.Computing? || pc'.Publishing? ==> pc.lease.owner))
    ensures RegistryInv(maxEntries, w')
  {
    assert ThreadOk(w, t);
    forall u | u in w'.threads ensures ThreadOk(w', u) {
      assert ThreadOk(w, u);
    }
    forall k | k in w'.reg.inflight ensures EntryOk(w', k) {
      assert EntryOk(w, k);
    }
  }

  // ----- the cache -----

  /** Stamps lie between the last successful clear and now; overtaken results can no longer be published. */
  ghost predicate CacheInv(w: World) {
    && w.clean <= w.reg.generation
    && (forall k :: k in w.cache ==> w.clean <= w.cache[k].generation <= w.reg.generation)
    && (forall t :: t in w.threads && Overtaken(w.threads[t]) ==> w.threads[t].lease.generation < w.reg.generation)
  }

  predicate Overtaken(pc: Pc) {
    (pc.Computing? || pc.Publishing?) && !pc.current
  }

  lemma CacheStep(maxEntries: nat, w: World, a: Action)
    requires CacheInv(w) && Enabled(w, a)
    requires a.Read? ==> w.threads[a.t].lease.generation <= w.reg.generation
    ensures CacheInv(Apply(maxEntries, w, a))
  {
    match a
    case Begin(t, key) => CacheBegin(maxEntries, w, t, key);
    case Wake(t) => CacheGo(w, Go(w, t, Reading(w.threads[t].lease)), t);
    case Timeout(t) => CacheGo(w, Go(w, t, Finishing(w.threads[t].lease)), t);
    case Read(t, fails) => CacheRead(w, t, fails);
    case Compute(t, result) => CacheCompute(w, t, result);
    case Publish(t, fails) => CachePublish(w, t, fails);
    case Finish(t) => CacheFinish(w, t);
    case Release(t) => CacheGo(w, Go(w, t, Done).(reg := Signaled(w.reg, w.threads[t].lease.event)), t);
    case Clear(clears) => CacheClear(w, clears);
    case Forget(key) => CacheForget(maxEntries, w, key);
  }

  lemma CacheBegin(maxEntries: nat, w: World, t: nat, key: string)
    requires CacheInv(w) && t !in w.threads
    ensures CacheInv(DoBegin(maxEntries, w, t, key))
  {
    CacheGo(w, DoBegin(maxEntries, w, t, key), t);
  }

  lemma CacheRead(w: World, t: nat, fails: bool)
    requires CacheInv(w) && Enabled(w, Read(t, fails)) && w.threads[t].lease.generation <= w.reg.generation
    ensures CacheInv(DoRead(w, t, fails))
  {
    CacheGo(w, DoRead(w, t, fails), t);
  }

  lemma CacheCompute(w: World, t: nat, result: Option<nat>)
    requires CacheInv(w) && Enabled(w, Compute(t, result))
    ensures CacheInv(DoCompute(w, t, result))
  {
    CacheGo(w, DoCompute(w, t, result), t);
  }

  lemma CacheFinish(w: World, t: nat)
    requires CacheInv(w) && Enabled(w, Finish(t))
    ensures CacheInv(DoFinish(w, t))
  {
    CacheGo(w, DoFinish(w, t), t);
  }

  lemma CacheGo(w: World, w': World, t: nat)
    requires CacheInv(w) && w'.cache == w.cache && w'.clean == w.clean && w'.reg.generation == w.reg.generation
    requires t in w'.threads && w'.threads == w.threads[t := w'.threads[t]]
    requires Overtaken(w'.threads[t]) ==> w'.threads[t].lease.generation < w.reg.generation
    ensures CacheInv(w')
  {
  }

  lemma CachePublish(w: World, t: nat, fails: bool)
    requires CacheInv(w) && Enabled(w, Publish(t, fails))
    ensures CacheInv(DoPublish(w, t, fails))
  {
  }

  lemma CacheClear(w: World, clears: bool)
    requires CacheInv(w)
    ensures CacheInv(DoClear(w, clears))
  {
  }

  lemma CacheForget(maxEntries: nat, w: World, key: string)
    requires CacheInv(w) && key in w.cache
    ensures CacheInv(Apply(maxEntries, w, Forget(key)))
  {
  }

  // ----- at most one computation -----

  /** The thread is computing or holding a result for (key, generation), from a miss seen in time. */
  predicate Works(pc: Pc, key: string, generation: nat) {
    (pc.Computing? || pc.Publishing?) && pc.current && pc.lease.key == key && pc.lease.generation == generation
  }

  ghost predicate Busy(w: World, key: string, generation: nat) {
    exists t :: t in w.threads && Works(w.threads[t], key, generation)
  }

  ghost predicate HasResult(w: World, key: string, generation: nat) {
    exists t :: t in w.threads && w.threads[t].Publishing? && Works(w.threads[t], key, generation)
  }

  predicate Stamped(w: World, key: string, generation: nat) {
    key in w.cache && w.cache[key].generation == generation
  }

  /** Two threads never work for the same key and generation. */
  ghost predicate Exclusive(w: World) {
    forall t, u :: t in w.threads && u in w.threads && SameWork(w.threads[t], w.threads[u]) ==> t == u
  }

  predicate SameWork(a: Pc, b: Pc) {
    && (a.Computing? || a.Publishing?) && a.current
    && (b.Computing? || b.Publishing?) && b.current
    && a.lease.key == b.lease.key && a.lease.generation == b.lease.generation
  }

  /** Every computed value is cached, in hand, or dropped. */
  ghost predicate AccountOk(w: World, key: string, generation: nat) {
    var computed, dropped := Count(w.computed, key, generation), Count(w.dropped, key, generation);
    if generation > w.reg.generation then computed == 0 && dropped == 0
    else if generation == w.reg.generation then
      && computed == dropped + (if Stamped(w, key, generation) || HasResult(w, key, generation) then 1 else 0)
      && (Busy(w, key, generation) ==> key !in w.cache)
    else
      && computed <= dropped + 1
      && (Busy(w, key, generation) && !HasResult(w, key, generation) ==> computed <= dropped)
  }

  ghost predicate Ledger(w: World) {
    !w.saturated ==> Exclusive(w) && forall key: string, generation: nat :: AccountOk(w, key, generation)
  }

  lemma Idle(w: World, w': World, key: string, generation: nat)
    requires forall t :: t in w'.threads && Works(w'.threads[t], key, generation) ==> t in w.threads && w.threads[t] == w'.threads[t]
    requires forall t :: t in w.threads && Works(w.threads[t], key, generation) ==> t in w'.threads && w.threads[t] == w'.threads[t]
    ensures Busy(w, key, generation) == Busy(w', key, generation)
    ensures HasResult(w, key, generation) == HasResult(w', key, generation)
  {
    if Busy(w, key, generation) {
      var t :| t in w.threads && Works(w.threads[t], key, generation);
      assert Works(w'.threads[t], key, generation);
    }
    if HasResult(w, key, generation) {
      var t :| t in w.threads && w.threads[t].Publishing? && Works(w.threads[t], key, generation);
      assert Works(w'.threads[t], key, generation);
    }
    if Busy(w', key, generation) {
      var t :| t in w'.threads && Works(w'.threads[t], key, generation);
      assert Works(w.threads[t], key, generation);
    }
    if HasResult(w', key, generation) {
      var t :| t in w'.threads && w'.threads[t].Publishing? && Works(w'.threads[t], key, generation);
      assert Works(w.threads[t], key, generation);
    }
  }

  /** A step that neither starts, ends nor advances any work. */
  lemma LedgerIdle(w: World, w': World)
    requires Ledger(w) && w'.computed == w.computed && w'.dropped == w.dropped && w'.cache == w.cache
    requires w'.reg.generation == w.reg.generation && (w.saturated ==> w'.saturated)
    requires forall t :: t in w'.threads && (w'.threads[t].Computing? || w'.threads[t].Publishing?) && w'.threads[t].current ==>
                           t in w.threads && w.threads[t] == w'.threads[t]
    requires forall t :: t in w.threads && (w.threads[t].Computing? || w.threads[t].Publishing?) && w.threads[t].current ==>
                           t in w'.threads && w.threads[t] == w'.threads[t]
    ensures Ledger(w')
  {
    if !w'.saturated {
      forall key: string, generation: nat ensures AccountOk(w', key, generation) {
        assert AccountOk(w, key, generation);
        Idle(w, w', key, generation);
      }
    }
  }

  /** Of the unfinished tracked owners of the current generation, one at most has a given key. */
  lemma OneOwner(maxEntries: nat, w: World, t: nat, u: nat)
    requires RegistryInv(maxEntries, w) && !w.saturated && t in w.threads && u in w.threads
    requires Unfinished(w.threads[t]) && Unfinished(w.threads[u])
    requires w.threads[t].lease.owner && w.threads[u].lease.owner && w.threads[t].lease.key == w.threads[u].lease.key
    requires w.threads[t].lease.generation == w.threads[u].lease.generation == w.reg.generation
    ensures t == u
  {
    assert ThreadOk(w, t) && ThreadOk(w, u);
  }

  lemma LedgerRead(maxEntries: nat, w: World, t: nat, fails: bool)
    requires RegistryInv(maxEntries, w) && Ledger(w) && Enabled(w, Read(t, fails))
    ensures Ledger(DoRead(w, t, fails))
  {
    var w' := DoRead(w, t, fails);
    var pc' := w'.threads[t];
    if !pc'.Computing? || !pc'.current {
      LedgerIdle(w, w');
    } else if !w.saturated {
      FirstMiss(maxEntries, w, t);
      ReadExclusive(w, w', t);
      forall key: string, generation: nat ensures AccountOk(w', key, generation) {
        ReadAccount(w, w', t, key, generation);
      }
    }
  }

  /** When an owner misses in time, nobody else is at work for its key and generation. */
  lemma FirstMiss(maxEntries: nat, w: World, t: nat)
    requires RegistryInv(maxEntries, w) && !w.saturated && t in w.threads && w.threads[t].Reading?
    requires w.threads[t].lease.owner && w.threads[t].lease.generation == w.reg.generation
    ensures forall u :: u in w.threads ==> !Works(w.threads[u], w.threads[t].lease.key, w.threads[t].lease.generation)
  {
    forall u | u in w.threads ensures !Works(w.threads[u], w.threads[t].lease.key, w.threads[t].lease.generation) {
      assert ThreadOk(w, u);
      if Works(w.threads[u], w.threads[t].lease.key, w.threads[t].lease.generation) {
        OneOwner(maxEntries, w, t, u);
      }
    }
  }

  lemma ReadExclusive(w: World, w': World, t: nat)
    requires Exclusive(w) && t in w.threads && w.threads[t].Reading? && w' == Go(w, t, Computing(w.threads[t].lease, true))
    requires forall u :: u in w.threads ==> !Works(w.threads[u], w.threads[t].lease.key, w.threads[t].lease.generation)
    ensures Exclusive(w')
  {
    forall x, y | x in w'.threads && y in w'.threads && SameWork(w'.threads[x], w'.threads[y]) ensures x == y {
      if x != t && y != t {
        assert SameWork(w.threads[x], w.threads[y]);
      }
    }
  }

  lemma ReadAccount(w: World, w': World, t: nat, key: string, generation: nat)
    requires AccountOk(w, key, generation)
    requires t in w.threads && w.threads[t].Reading? && w' == Go(w, t, Computing(w.threads[t].lease, true))
    requires w.threads[t].lease.generation == w.reg.generation && w.threads[t].lease.key !in w.cache
    requires forall u :: u in w.threads ==> !Works(w.threads[u], w.threads[t].lease.key, w.threads[t].lease.generation)
    ensures AccountOk(w', key, generation)
  {
    var lease := w.threads[t].lease;
    if key != lease.key || generation != lease.generation {
      Idle(w, w', key, generation);
    } else {
      assert Works(w'.threads[t], key, generation);
    }
  }

  lemma Alone(w: World, t: nat)
    requires Exclusive(w) && t in w.threads && (w.threads[t].Computing? || w.threads[t].Publishing?) && w.threads[t].current
    ensures forall u :: u in w.threads && Works(w.threads[u], w.threads[t].lease.key, w.threads[t].lease.generation) ==> u == t
  {
    forall u | u in w.threads && Works(w.threads[u], w.threads[t].lease.key, w.threads[t].lease.generation) ensures u == t {
      assert SameWork(w.threads[u], w.threads[t]);
    }
  }

  /** Work only ends or advances: two workers for one key and generation would have been two before. */
  lemma StillExclusive(w: World, w': World, t: nat)
    requires Exclusive(w) && t in w.threads && t in w'.threads && w'.threads == w.threads[t := w'.threads[t]]
    requires (w'.threads[t].Computing? || w'.threads[t].Publishing?) && w'.threads[t].current ==>
               Works(w.threads[t], w'.threads[t].lease.key, w'.threads[t].lease.generation)
    ensures Exclusive(w')
  {
    forall x, y | x in w'.threads && y in w'.threads && SameWork(w'.threads[x], w'.threads[y]) ensures x == y {
      assert SameWork(w.threads[x], w.threads[y]);
    }
  }

  lemma LedgerCompute(maxEntries: nat, w: World, t: nat, result: Option<nat>)
    requires RegistryInv(maxEntries, w) && Ledger(w) && Enabled(w, Compute(t, result))
    ensures Ledger(DoCompute(w, t, result))
  {
    var w' := DoCompute(w, t, result);
    if !w.threads[t].current {
      LedgerIdle(w, w');
    } else if !w.saturated {
      LeaseSane(maxEntries, w, t);
      Alone(w, t);
      StillExclusive(w, w', t);
      forall key: string, generation: nat ensures AccountOk(w', key, generation) {
        ComputeAccount(w, t, result, key, generation);
      }
    }
  }

  lemma ComputeAccount(w: World, t: nat, result: Option<nat>, key: string, generation: nat)
    requires AccountOk(w, key, generation) && Enabled(w, Compute(t, result)) && w.threads[t].current
    requires w.threads[t].lease.generation <= w.reg.generation
    requires forall u :: u in w.threads && Works(w.threads[u], w.threads[t].lease.key, w.threads[t].lease.generation) ==> u == t
    ensures AccountOk(DoCompute(w, t, result), key, generation)
  {
    var w' := DoCompute(w, t, result);
    var lease := w.threads[t].lease;
    if key != lease.key || generation != lease.generation {
      Idle(w, w', key, generation);
    } else {
      assert Works(w.threads[t], key, generation);
      assert !HasResult(w, key, generation);
      if result.Some? {
        assert Works(w'.threads[t], key, generation);
      } else {
        assert !Busy(w', key, generation);
      }
    }
  }

  lemma LedgerPublish(maxEntries: nat, w: World, t: nat, fails: bool)
    requires RegistryInv(maxEntries, w) && CacheInv(w) && Ledger(w) && Enabled(w, Publish(t, fails))
    ensures Ledger(DoPublish(w, t, fails))
  {
    var w' := DoPublish(w, t, fails);
    if !w.threads[t].current {
      OvertakenIdle(w, t, fails);
    } else if !w.saturated {
      LeaseSane(maxEntries, w, t);
      Alone(w, t);
      StillExclusive(w, w', t);
      forall key: string, generation: nat ensures AccountOk(w', key, generation) {
        PublishAccount(w, t, fails, key, generation);
      }
    }
  }

  lemma LeaseSane(maxEntries: nat, w: World, t: nat)
    requires RegistryInv(maxEntries, w) && t in w.threads && !w.threads[t].Done?
    ensures w.threads[t].lease.generation <= w.reg.generation
  {
    assert ThreadOk(w, t);
  }

  lemma OvertakenIdle(w: World, t: nat, fails: bool)
    requires CacheInv(w) && Ledger(w) && Enabled(w, Publish(t, fails)) && !w.threads[t].current
    ensures Ledger(DoPublish(w, t, fails))
  {
    assert Overtaken(w.threads[t]);
    LedgerIdle(w, DoPublish(w, t, fails));
  }

  lemma PublishAccount(w: World, t: nat, fails: bool, key: string, generation: nat)
    requires AccountOk(w, key, generation) && Enabled(w, Publish(t, fails)) && w.threads[t].current
    requires w.threads[t].lease.generation <= w.reg.generation
    requires AccountOk(w, key, w.reg.generation)
    requires forall u :: u in w.threads && Works(w.threads[u], w.threads[t].lease.key, w.threads[t].lease.generation) ==> u == t
    ensures AccountOk(DoPublish(w, t, fails), key, generation)
  {
    var lease := w.threads[t].lease;
    if key != lease.key || generation != lease.generation {
      PublishElsewhere(w, t, fails, key, generation);
    } else {
      PublishHere(w, t, fails);
    }
  }

  lemma PublishElsewhere(w: World, t: nat, fails: bool, key: string, generation: nat)
    requires AccountOk(w, key, generation) && Enabled(w, Publish(t, fails)) && w.threads[t].current
    requires w.threads[t].lease.generation <= w.reg.generation
    requires key != w.threads[t].lease.key || generation != w.threads[t].lease.generation
    ensures AccountOk(DoPublish(w, t, fails), key, generation)
  {
    var w' := DoPublish(w, t, fails);
    Idle(w, w', key, generation);
    assert Count(w'.dropped, key, generation) == Count(w.dropped, key, generation);
  }

  lemma PublishHere(w: World, t: nat, fails: bool)
    requires Enabled(w, Publish(t, fails)) && w.threads[t].current
    requires var lease := w.threads[t].lease;
             && lease.generation <= w.reg.generation && AccountOk(w, lease.key, lease.generation)
             && forall u :: u in w.threads && Works(w.threads[u], lease.key, lease.generation) ==> u == t
    ensures AccountOk(DoPublish(w, t, fails), w.threads[t].lease.key, w.threads[t].lease.generation)
  {
    var w' := DoPublish(w, t, fails);
    var lease := w.threads[t].lease;
    assert Works(w.threads[t], lease.key, lease.generation);
    assert HasResult(w, lease.key, lease.generation);
    forall u | u in w'.threads ensures !Works(w'.threads[u], lease.key, lease.generation) {
      if u != t {
        assert w'.threads[u] == w.threads[u];
      }
    }
    assert !Busy(w', lease.key, lease.generation) && !HasResult(w', lease.key, lease.generation);
  }

  lemma NoFutureWork(maxEntries: nat, w: World, key: string, generation: nat)
    requires RegistryInv(maxEntries, w) && generation > w.reg.generation
    ensures !Busy(w, key, generation) && !HasResult(w, key, generation)
  {
    forall t | t in w.threads ensures !Works(w.threads[t], key, generation) {
      assert ThreadOk(w, t);
    }
  }

  lemma LedgerClear(maxEntries: nat, w: World, clears: bool)
    requires RegistryInv(maxEntries, w) && CacheInv(w) && Ledger(w)
    ensures Ledger(DoClear(w, clears))
  {
    var w' := DoClear(w, clears);
    if !w.saturated {
      forall key: string, generation: nat ensures AccountOk(w', key, generation) {
        assert AccountOk(w, key, generation);
        Idle(w, w', key, generation);
        if generation > w.reg.generation {
          NoFutureWork(maxEntries, w, key, generation);
        }
      }
    }
  }

  lemma LedgerForget(maxEntries: nat, w: World, key: string)
    requires CacheInv(w) && Ledger(w) && key in w.cache
    ensures Ledger(Apply(maxEntries, w, Forget(key)))
  {
    var w' := Apply(maxEntries, w, Forget(key));
    if !w.saturated {
      forall k: string, generation: nat ensures AccountOk(w', k, generation) {
        assert AccountOk(w, k, generation);
        Idle(w, w', k, generation);
        assert HasResult(w, k, generation) ==> Busy(w, k, generation);
      }
    }
  }

  lemma LedgerBegin(maxEntries: nat, w: World, t: nat, key: string)
    requires Ledger(w) && t !in w.threads
    ensures Ledger(DoBegin(maxEntries, w, t, key))
  {
    LedgerIdle(w, DoBegin(maxEntries, w, t, key));
  }

  lemma LedgerGo(w: World, t: nat, pc: Pc, reg: Registry)
    requires Ledger(w) && t in w.threads && !w.threads[t].Computing? && !w.threads[t].Publishing? && !pc.Computing? && !pc.Publishing?
    requires reg.generation == w.reg.generation
    ensures Ledger(Go(w, t, pc).(reg := reg))
  {
    LedgerIdle(w, Go(w, t, pc).(reg := reg));
  }

  /** All that holds in every reachable world. */
  ghost predicate Inv(maxEntries: nat, w: World) {
    RegistryInv(maxEntries, w) && CacheInv(w) && Ledger(w)
  }

  lemma InvStep(maxEntries: nat, w: World, a: Action)
    requires maxEntries >= 1 && Inv(maxEntries, w) && Enabled(w, a)
    ensures Inv(maxEntries, Apply(maxEntries, w, a))
  {
    RegistryStep(maxEntries, w, a);
    if a.Read? {
      assert ThreadOk(w, a.t);
    }
    CacheStep(maxEntries, w, a);
    LedgerStep(maxEntries, w, a);
  }

  lemma LedgerStep(maxEntries: nat, w: World, a: Action)
    requires Inv(maxEntries, w) && Enabled(w, a)
    ensures Ledger(Apply(maxEntries, w, a))
  {
    match a
    case Begin(t, key) => LedgerBegin(maxEntries, w, t, key);
    case Wake(t) => LedgerGo(w, t, Reading(w.threads[t].lease), w.reg);
    case Timeout(t) => LedgerGo(w, t, Finishing(w.threads[t].lease), w.reg);
    case Read(t, fails) => LedgerRead(maxEntries, w, t, fails);
    case Compute(t, result) => LedgerCompute(maxEntries, w, t, result);
    case Publish(t, fails) => LedgerPublish(maxEntries, w, t, fails);
    case Finish(t) =>
      var lease := w.threads[t].lease;
      LedgerGo(w, t, if Holds(w.reg, lease) then Releasing(lease) else Done, Unregistered(w.reg, lease));
    case Release(t) => LedgerGo(w, t, Done, Signaled(w.reg, w.threads[t].lease.event));
    case Clear(clears) => LedgerClear(maxEntries, w, clears);
    case Forget(key) => LedgerForget(maxEntries, w, key);
  }

  // ----- runs -----

  /** Any interleaving of any number of calls, clears and cache losses. */
  ghost predicate Run(maxEntries: nat, states: seq<World>, actions: seq<Action>) {
    && |states| == |actions| + 1 && states[0] == START
    && forall i :: 0 <= i < |actions| ==> Follows(maxEntries, states[i], actions[i], states[i + 1])
  }

  ghost predicate Follows(maxEntries: nat, w: World, a: Action, w': World) {
    Enabled(w, a) && w' == Apply(maxEntries, w, a)
  }

  lemma {:induction false} InvAlways(maxEntries: nat, states: seq<World>, actions: seq<Action>, i: nat)
    requires maxEntries >= 1 && Run(maxEntries, states, actions) && i <= |actions|
    ensures Inv(maxEntries, states[i])
  {
    if i == 0 {
      assert !HasResult(START, "", 0);
      forall key: string, generation: nat ensures AccountOk(START, key, generation) {
        assert !HasResult(START, key, generation) && !Busy(START, key, generation);
      }
    } else {
      InvAlways(maxEntries, states, actions, i - 1);
      assert Follows(maxEntries, states[i - 1], actions[i - 1], states[i]);
      InvStep(maxEntries, states[i - 1], actions[i - 1]);
    }
  }

  /**
   * While the registry was never saturated, a key is computed at most once per
   * generation, not counting values the cache lost and computations by owners
   * that were overtaken by a clear before they re-read the cache.
   */
  lemma ComputedAtMostOnce(maxEntries: nat, states: seq<World>, actions: seq<Action>, i: nat, key: string, generation: nat)
    requires maxEntries >= 1 && Run(maxEntries, states, actions) && i <= |actions| && !states[i].saturated
    ensures Count(states[i].computed, key, generation) <= 1 + Count(states[i].dropped, key, generation)
  {
    InvAlways(maxEntries, states, actions, i);
    assert AccountOk(states[i], key, generation);
  }

  ghost predicate OvertakenPast(w: World) {
    forall key: string, generation: nat :: Count(w.overtaken, key, generation) > 0 ==> generation < w.reg.generation
  }

  lemma OvertakenCompute(w: World, t: nat, result: Option<nat>)
    requires OvertakenPast(w) && CacheInv(w) && Enabled(w, Compute(t, result))
    ensures OvertakenPast(DoCompute(w, t, result))
  {
    var w' := DoCompute(w, t, result);
    forall key: string, generation: nat | Count(w'.overtaken, key, generation) > 0 ensures generation < w'.reg.generation {
      if Count(w.overtaken, key, generation) == 0 {
        assert Overtaken(w.threads[t]);
      }
    }
  }

  lemma OvertakenUnchanged(maxEntries: nat, w: World, a: Action)
    requires Enabled(w, a) && !a.Compute?
    ensures Apply(maxEntries, w, a).overtaken == w.overtaken && Apply(maxEntries, w, a).reg.generation >= w.reg.generation
  {
    match a
    case Begin(t, key) => BeginKeeps(maxEntries, w, t, key);
    case Read(t, fails) => ReadKeeps(w, t, fails);
    case Publish(t, fails) => PublishKeeps(w, t, fails);
    case Finish(t) => FinishKeeps(w, t);
    case Clear(clears) =>
    case Forget(key) =>
    case Wake(t) =>
    case Timeout(t) =>
    case Release(t) =>
  }

  lemma ReadKeeps(w: World, t: nat, fails: bool)
    requires Enabled(w, Read(t, fails))
    ensures DoRead(w, t, fails).overtaken == w.overtaken && DoRead(w, t, fails).reg == w.reg
  {
  }

  lemma PublishKeeps(w: World, t: nat, fails: bool)
    requires Enabled(w, Publish(t, fails))
    ensures DoPublish(w, t, fails).overtaken == w.overtaken && DoPublish(w, t, fails).reg == w.reg
  {
  }

  lemma FinishKeeps(w: World, t: nat)
    requires Enabled(w, Finish(t))
    ensures DoFinish(w, t).overtaken == w.overtaken && DoFinish(w, t).reg.generation == w.reg.generation
  {
  }

  lemma BeginKeeps(maxEntries: nat, w: World, t: nat, key: string)
    ensures var w' := DoBegin(maxEntries, w, t, key); w'.overtaken == w.overtaken && w'.reg.generation == w.reg.generation && w'.clean == w.clean
  {
  }

  lemma {:induction false} OvertakenAlways(maxEntries: nat, states: seq<World>, actions: seq<Action>, i: nat)
    requires maxEntries >= 1 && Run(maxEntries, states, actions) && i <= |actions|
    ensures OvertakenPast(states[i])
  {
    if i > 0 {
      OvertakenAlways(maxEntries, states, actions, i - 1);
      InvAlways(maxEntries, states, actions, i - 1);
      assert Follows(maxEntries, states[i - 1], actions[i - 1], states[i]);
      var w, a := states[i - 1], actions[i - 1];
      if a.Compute? {
        OvertakenCompute(w, a.t, a.result);
      } else {
        OvertakenUnchanged(maxEntries, w, a);
        forall key: string, generation: nat | Count(states[i].overtaken, key, generation) > 0 ensures generation < states[i].reg.generation {
          assert Count(w.overtaken, key, generation) > 0;
        }
      }
    }
  }

  /** Until the generation ends there is no exception: all computations under it are counted, and they are at most one. */
  lemma ComputedAtMostOnceWhileCurrent(maxEntries: nat, states: seq<World>, actions: seq<Action>, i: nat, key: string)
    requires maxEntries >= 1 && Run(maxEntries, states, actions) && i <= |actions| && !states[i].saturated
    ensures var w := states[i];
            Count(w.computed, key, w.reg.generation) + Count(w.overtaken, key, w.reg.generation) <=
            1 + Count(w.dropped, key, w.reg.generation)
  {
    ComputedAtMostOnce(maxEntries, states, actions, i, key, states[i].reg.generation);
    OvertakenAlways(maxEntries, states, actions, i);
  }

  lemma Prolong(maxEntries: nat, states: seq<World>, actions: seq<Action>, a: Action) returns (states': seq<World>, actions': seq<Action>)
    requires Run(maxEntries, states, actions) && Enabled(states[|actions|], a)
    ensures Run(maxEntries, states', actions') && |actions'| == |actions| + 1
    ensures states'[|actions'|] == Apply(maxEntries, states[|actions|], a)
  {
    states', actions' := states + [Apply(maxEntries, states[|actions|], a)], actions + [a];
    forall i | 0 <= i < |actions'| ensures Follows(maxEntries, states'[i], actions'[i], states'[i + 1]) {
      if i < |actions| {
        assert Follows(maxEntries, states[i], actions[i], states[i + 1]);
      }
    }
  }

  /** One call computes a key under generation 0 and leaves the value in the cache. */
  lemma FirstCall(maxEntries: nat, key: string) returns (states: seq<World>, actions: seq<Action>)
    requires maxEntries >= 1
    ensures Run(maxEntries, states, actions)
    ensures states[|actions|] ==
            World(Registry(0, map[], {0}, 1), map[key := Cached(7, 0)], map[1 := Done], map[0 := 1], map[(key, 0) := 1], map[], map[], false, 0)
  {
    states, actions := [START], [];
    states, actions := Prolong(maxEntries, states, actions, Begin(1, key));
    states, actions := Prolong(maxEntries, states, actions, Read(1, false));
    states, actions := Prolong(maxEntries, states, actions, Compute(1, Some(7)));
    states, actions := Prolong(maxEntries, states, actions, Publish(1, false));
    states, actions := Prolong(maxEntries, states, actions, Finish(1));
    assert states[|actions|].reg.inflight == map[];
    states, actions := Prolong(maxEntries, states, actions, Release(1));
  }

  /**
   * The exception is real: an owner that reserves before a clear and re-reads
   * the emptied cache after it computes the key a second time under the
   * generation of its lease, though nothing was dropped or saturated.
   */
  lemma ComputedTwice(maxEntries: nat, key: string) returns (states: seq<World>, actions: seq<Action>)
    requires maxEntries >= 1
    ensures Run(maxEntries, states, actions)
    ensures var w := states[|actions|];
            && Count(w.computed, key, 0) + Count(w.overtaken, key, 0) == 2
            && Count(w.dropped, key, 0) == 0 && !w.saturated
  {
    states, actions := FirstCall(maxEntries, key);
    states, actions := Prolong(maxEntries, states, actions, Begin(2, key));
    states, actions := Prolong(maxEntries, states, actions, Clear(true));
    states, actions := Prolong(maxEntries, states, actions, Read(2, false));
    states, actions := Prolong(maxEntries, states, actions, Compute(2, Some(8)));
  }

  /** The result of an overtaken owner is never published, so the exception above is harmless to the cache. */
  lemma OvertakenNotPublished(maxEntries: nat, states: seq<World>, actions: seq<Action>, i: nat)
    requires maxEntries >= 1 && Run(maxEntries, states, actions) && i < |actions|
    requires actions[i].Publish? && actions[i].t in states[i].threads && Overtaken(states[i].threads[actions[i].t])
    ensures states[i + 1].cache == states[i].cache
  {
    InvAlways(maxEntries, states, actions, i);
    assert Follows(maxEntries, states[i], actions[i], states[i + 1]);
  }

  /** After a clear that emptied the cache, nothing computed under an earlier generation is ever cached. */
  lemma NothingStaleCached(maxEntries: nat, states: seq<World>, actions: seq<Action>, i: nat, j: nat, key: string)
    requires maxEntries >= 1 && Run(maxEntries, states, actions) && i < j <= |actions|
    requires actions[i] == Clear(true) && key in states[j].cache
    ensures states[j].cache[key].generation >= states[i + 1].reg.generation
  {
    InvAlways(maxEntries, states, actions, j);
    assert Follows(maxEntries, states[i], actions[i], states[i + 1]);
    CleanGrows(maxEntries, states, actions, i + 1, j);
  }

  lemma {:induction false} CleanGrows(maxEntries: nat, states: seq<World>, actions: seq<Action>, i: nat, j: nat)
    requires maxEntries >= 1 && Run(maxEntries, states, actions) && i <= j <= |actions|
    ensures states[i].clean <= states[j].clean
  {
    if i < j {
      CleanGrows(maxEntries, states, actions, i, j - 1);
      InvAlways(maxEntries, states, actions, j - 1);
      assert Follows(maxEntries, states[j - 1], actions[j - 1], states[j]);
      CleanStep(maxEntries, states[j - 1], actions[j - 1]);
    }
  }

  lemma CleanStep(maxEntries: nat, w: World, a: Action)
    requires w.clean <= w.reg.generation && Enabled(w, a)
    ensures w.clean <= Apply(maxEntries, w, a).clean
  {
    match a
    case Begin(t, key) => BeginKeeps(maxEntries, w, t, key);
    case _ =>
  }

  /** The registry never exceeds its limit, and no waiter is stranded. */
  lemma WaitersLookedAfter(maxEntries: nat, states: seq<World>, actions: seq<Action>, i: nat, t: nat)
    requires maxEntries >= 1 && Run(maxEntries, states, actions) && i <= |actions|
    requires t in states[i].threads && states[i].threads[t].Waiting?
    ensures |states[i].reg.inflight| <= maxEntries
    ensures Looked(states[i], states[i].threads[t].lease)
  {
    InvAlways(maxEntries, states, actions, i);
    assert ThreadOk(states[i], t);
  }

  /** A finish from before a clear neither removes nor signals anything. */
  lemma LateFinishHarmless(maxEntries: nat, states: seq<World>, actions: seq<Action>, i: nat)
    requires maxEntries >= 1 && Run(maxEntries, states, actions) && i < |actions|
    requires actions[i].Finish? && actions[i].t in states[i].threads && states[i].threads[actions[i].t].Finishing?
    requires states[i].threads[actions[i].t].lease.generation < states[i].reg.generation
    ensures states[i + 1].reg == states[i].reg && states[i + 1].threads[actions[i].t] == Done
  {
    InvAlways(maxEntries, states, actions, i);
    assert Follows(maxEntries, states[i], actions[i], states[i + 1]);
    var lease := states[i].threads[actions[i].t].lease;
    assert lease.key in states[i].reg.inflight ==> EntryOk(states[i], lease.key);
  }
}
