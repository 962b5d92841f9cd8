/**
 * KeyedSingleFlight of app/concurrency.py: concurrent calls for one key are
 * merged behind an owner, waiters re-read the cache, and `clear` fences what
 * was started before it. This file is the registry itself: `reserve`, `finish`
 * and `clear`, each a critical section over the in-flight table.
 */
module SingleFlight {

  /** `_inflight[key]`: the generation of the registration and its event. */
  datatype Entry = Entry(generation: nat, event: nat)

  /** Events are numbered; `signaled` holds those that have been set. */
  datatype Registry = Registry(generation: nat, inflight: map<string, Entry>, signaled: set<nat>, nextEvent: nat)

  datatype Lease = Lease(key: string, owner: bool, generation: nat, tracked: bool, event: nat)

  function Reserved(r: Registry, maxEntries: nat, key: string): (Registry, Lease) {
    if key in r.inflight then
      (r, Lease(key, false, r.inflight[key].generation, true, r.inflight[key].event))
    else
      var created := r.(nextEvent := r.nextEvent + 1);
      if |r.inflight| >= maxEntries then
        (created, Lease(key, true, r.generation, false, r.nextEvent))
      else
        (created.(inflight := r.inflight[key := Entry(r.generation, r.nextEvent)]),
         Lease(key, true, r.generation, true, r.nextEvent))
  }

  /** The locked part of `finish`: whether the lease is still the registered one. */
  predicate Holds(r: Registry, lease: Lease) {
    && lease.owner && lease.tracked
    && lease.key in r.inflight && r.inflight[lease.key] == Entry(lease.generation, lease.event)
  }

  function Unregistered(r: Registry, lease: Lease): Registry {
    if Holds(r, lease) then r.(inflight := r.inflight - {lease.key}) else r
  }

  function Signaled(r: Registry, event: nat): Registry {
    r.(signaled := r.signaled + {event})
  }

  function Events(inflight: map<string, Entry>): set<nat> {
    set k | k in inflight :: inflight[k].event
  }

  function Cleared(r: Registry): Registry {
    Registry(r.generation + 1, map[], r.signaled + Events(r.inflight), r.nextEvent)
  }

  class KeyedSingleFlight {
    const maxEntries: nat
    var generation: nat
    var inflight: map<string, Entry>
    var signaled: set<nat>
    var nextEvent: nat

    ghost function View(): Registry
      reads this
    {
      Registry(generation, inflight, signaled, nextEvent)
    }

    constructor (limit: nat)
      requires limit >= 1
      ensures maxEntries == limit && View() == Registry(0, map[], {}, 0)
    {
      maxEntries, generation, inflight, signaled, nextEvent := limit, 0, map[], {}, 0;
    }

    method Reserve(key: string) returns (lease: Lease)
      modifies this
      ensures (View(), lease) == Reserved(old(View()), maxEntries, key)
      ensures |old(inflight)| <= maxEntries ==> |inflight| <= maxEntries
      ensures lease.key == key && (lease.owner <==> key !in old(inflight))
      ensures lease.tracked <==> key in old(inflight) || |old(inflight)| < maxEntries
      ensures lease.tracked ==> key in inflight && inflight[key] == Entry(lease.generation, lease.event)
      ensures lease.owner ==> lease.generation == generation && lease.event >= old(nextEvent) && lease.event < nextEvent
      ensures !lease.owner || !lease.tracked ==> inflight == old(inflight)
      ensures forall k :: k != key ==> (k in inflight <==> k in old(inflight)) && (k in inflight ==> inflight[k] == old(inflight)[k])
      ensures generation == old(generation) && signaled == old(signaled)
    {
      if key in inflight {
        var current := inflight[key];
        return Lease(key, false, current.generation, true, current.event);
      }
      var event := nextEvent;
      nextEvent := nextEvent + 1;
      if |inflight| >= maxEntries {
        return Lease(key, true, generation, false, event);
      }
      assert inflight[key := Entry(generation, event)].Keys == inflight.Keys + {key};
      inflight := inflight[key := Entry(generation, event)];
      return Lease(key, true, generation, true, event);
    }

    method Finish(lease: Lease)
      modifies this
      ensures View() == if Holds(old(View()), lease) then Signaled(Unregistered(old(View()), lease), lease.event)
                        else old(View())
      ensures forall k :: k in inflight <==>
                (k in old(inflight) && !(k == lease.key && lease.owner && lease.tracked && old(inflight)[k] == Entry(lease.generation, lease.event)))
      ensures signaled == if inflight == old(inflight) then old(signaled) else old(signaled) + {lease.event}
    {
      if !lease.owner || !lease.tracked {
        return;
      }
      var shouldRelease := false;
      if lease.key in inflight {
        var current := inflight[lease.key];
        if current.generation == lease.generation && current.event == lease.event {
          inflight := inflight - {lease.key};
          shouldRelease := true;
        }
      }
      if shouldRelease {
        signaled := signaled + {lease.event};
      }
    }

    /** The events are set even when clearing the cache failed. */
    method Clear()
      modifies this
      ensures View() == Cleared(old(View()))
      ensures generation > old(generation) && inflight == map[]
      ensures forall k :: k in old(inflight) ==> old(inflight)[k].event in signaled
    {
      generation := generation + 1;
      var pending := Events(inflight);
      inflight := map[];
      ghost var all := pending;
      while pending != {}
        invariant pending <= all
        invariant signaled == old(signaled) + (all - pending)
        invariant generation == old(generation) + 1 && inflight == map[] && nextEvent == old(nextEvent)
        decreases pending
      {
        var event :| event in pending;
        signaled := signaled + {event};
        pending := pending - {event};
      }
      assert signaled == old(signaled) + all;
    }
  }
}
