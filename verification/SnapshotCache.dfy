/**
 * `_MediaSnapshotCache` of app/services.py and the merging of a refresh with
 * the snapshot it replaces. One slot, a generation that invalidation raises,
 * and a retention limit that failed refreshes must not extend.
 */
module SnapshotCache {
  import opened Basics

  const RETENTION := 300.0

  /** What a refresh got from one server; `lists` are the recent-media generations it reused. */
  datatype Reading = Reading(server: string, error: bool, online: bool, partial: bool, value: nat, lists: set<nat>)

  /**
   * A server's content in a snapshot. `updated` says that it carries a time of
   * reading; `readAt` is the publication time of the successful refresh that its
   * oldest part came from.
   */
  datatype Item = Item(server: string, value: nat, updated: bool, readAt: real, stale: bool, lists: set<nat>)

  /** `born` is the cache generation under which the snapshot was loaded. */
  datatype Snapshot = Snapshot(id: nat, key: string, expiresAt: real, retainUntil: real, items: seq<Item>, forced: bool, publishedAt: real, born: nat)

  datatype Cache = Cache(entry: Option<Snapshot>, generation: nat, nextId: nat)

  // ----- the slot -----

  function Peek(c: Cache, key: string, now: real, stale: bool): Option<Snapshot> {
    if c.entry.Some? && c.entry.value.key == key && now < c.entry.value.retainUntil && (stale || now < c.entry.value.expiresAt)
    then c.entry else None
  }

  function Invalidated(c: Cache, keepStale: bool): Cache {
    Cache(if keepStale && c.entry.Some? then Some(c.entry.value.(expiresAt := 0.0)) else None, c.generation + 1, c.nextId)
  }

  // ----- merging -----

  predicate Unavailable(r: Reading) {
    r.error || !r.online
  }

  /** The old item of this server that carries a time, the last one if there are several. */
  function Known(previous: seq<Item>, server: string): Option<Item> {
    if previous == [] then None
    else
      var last := previous[|previous| - 1];
      if last.server == server && last.updated then Some(last) else Known(previous[..|previous| - 1], server)
  }

  /** Where that item stands. */
  function KnownAt(previous: seq<Item>, server: string): (at: Option<nat>)
    ensures at.Some? ==> at.value < |previous| && Known(previous, server) == Some(previous[at.value])
    ensures at.None? ==> Known(previous, server).None?
  {
    if previous == [] then None
    else if previous[|previous| - 1].server == server && previous[|previous| - 1].updated then Some(|previous| - 1)
    else KnownAt(previous[..|previous| - 1], server)
  }

  function Retains(r: Reading, previous: seq<Item>): bool {
    (Unavailable(r) || r.partial) && Known(previous, r.server).Some?
  }

  /** A server that failed shows its old content, marked stale; one that half failed keeps the old time. */
  function Merged(r: Reading, previous: seq<Item>, now: real): Item {
    var past := Known(previous, r.server);
    if Unavailable(r) && past.Some? then past.value.(stale := true)
    else if r.partial && past.Some? then Item(r.server, r.value, true, past.value.readAt, true, r.lists + past.value.lists)
    else Item(r.server, r.value, r.online, now, false, r.lists)
  }

  function MergedUpTo(readings: seq<Reading>, n: nat, previous: seq<Item>, now: real): seq<Item>
    requires n <= |readings|
  {
    if n == 0 then [] else MergedUpTo(readings, n - 1, previous, now) + [Merged(readings[n - 1], previous, now)]
  }

  predicate AnyRetained(readings: seq<Reading>, previous: seq<Item>) {
    exists i :: 0 <= i < |readings| && Retains(readings[i], previous)
  }

  predicate AnyFailed(readings: seq<Reading>) {
    exists i :: 0 <= i < |readings| && (Unavailable(readings[i]) || readings[i].partial)
  }

  function AllStale(items: seq<Item>): seq<Item> {
    seq(|items|, i requires 0 <= i < |items| => items[i].(stale := true))
  }

  datatype Merge = Merge(items: seq<Item>, retained: bool, failed: bool)

  /** `None` is a refresh that failed altogether; with nothing to show instead it is an error. */
  function MergeAll(readings: Option<seq<Reading>>, previous: seq<Item>, now: real): Option<Merge> {
    match readings
    case None => if previous == [] then None else Some(Merge(AllStale(previous), true, true))
    case Some(rs) => Some(Merge(MergedUpTo(rs, |rs|, previous, now), AnyRetained(rs, previous), AnyFailed(rs)))
  }

  method MergeReadings(readings: Option<seq<Reading>>, previous: seq<Item>, now: real) returns (merge: Option<Merge>)
    ensures merge == MergeAll(readings, previous, now)
  {
    if readings.None? {
      if previous == [] {
        return None;
      }
      return Some(Merge(AllStale(previous), true, true));
    }
    var rs := readings.value;
    var items, retained, failed := [], false, false;
    for i := 0 to |rs|
      invariant items == MergedUpTo(rs, i, previous, now)
      invariant retained <==> exists k :: 0 <= k < i && Retains(rs[k], previous)
      invariant failed <==> exists k :: 0 <= k < i && (Unavailable(rs[k]) || rs[k].partial)
    {
      var r := rs[i];
      var past := Known(previous, r.server);
      failed := failed || Unavailable(r) || r.partial;
      if Unavailable(r) && past.Some? {
        items := items + [past.value.(stale := true)];
        retained := true;
      } else if r.partial && past.Some? {
        items := items + [Item(r.server, r.value, true, past.value.readAt, true, r.lists + past.value.lists)];
        retained := true;
      } else {
        items := items + [Item(r.server, r.value, r.online, now, false, r.lists)];
      }
    }
    merge := Some(Merge(items, retained, failed));
  }

  // ----- one load -----

  function Clamp(ttl: real): real {
    if ttl < 1.0 then 1.0 else if ttl > 300.0 then 300.0 else ttl
  }

  function Lifetime(ttl: real, failed: bool): real {
    if failed && Clamp(ttl) > 5.0 then 5.0 else Clamp(ttl)
  }

  function ItemsOf(previous: Option<Snapshot>): seq<Item> {
    if previous.Some? then previous.value.items else []
  }

  /** The snapshot a finished refresh makes at time `now`. */
  function Refreshed(c: Cache, key: string, born: nat, forced: bool, ttl: real, now: real, merge: Merge): Snapshot {
    var previous := Peek(c, key, now, true);
    Snapshot(c.nextId, key, now + Lifetime(ttl, merge.failed),
             if merge.retained && previous.Some? then previous.value.retainUntil else now + RETENTION,
             merge.items, forced, now, born)
  }

  /** What `load` does to the slot once its loader has returned; `None` is the error it raises. */
  function Published(c: Cache, key: string, born: nat, forced: bool, ttl: real, now: real, readings: Option<seq<Reading>>): (Cache, Option<seq<Item>>) {
    match MergeAll(readings, ItemsOf(Peek(c, key, now, true)), now)
    case None => (c, None)
    case Some(merge) =>
      if born != c.generation then (c, None)
      else (Cache(Some(Refreshed(c, key, born, forced, ttl, now, merge)), c.generation, c.nextId + 1), Some(merge.items))
  }

  /** A queued load is answered by a fresh snapshot; a forced one only by a forced snapshot newer than the one it saw. */
  predicate Answers(cached: Option<Snapshot>, observed: Option<nat>, force: bool) {
    cached.Some? && (!force || (Some(cached.value.id) != observed && cached.value.forced))
  }

  class MediaSnapshotCache {
    var entry: Option<Snapshot>
    var generation: nat
    var nextId: nat

    ghost function View(): Cache
      reads this
    {
      Cache(entry, generation, nextId)
    }

    constructor ()
      ensures View() == Cache(None, 0, 0)
    {
      entry, generation, nextId := None, 0, 0;
    }

    method PeekAt(key: string, now: real, stale: bool) returns (found: Option<Snapshot>)
      ensures found == Peek(View(), key, now, stale)
    {
      if entry.Some? && entry.value.key == key && now < entry.value.retainUntil && (stale || now < entry.value.expiresAt) {
        return entry;
      }
      found := None;
    }

    method Invalidate(keepStale: bool)
      modifies this
      ensures View() == Invalidated(old(View()), keepStale)
    {
      generation := generation + 1;
      entry := if keepStale && entry.Some? then Some(entry.value.(expiresAt := 0.0)) else None;
    }

    /** The end of `load`: the loader has returned its readings, or failed. */
    method Publish(key: string, born: nat, force: bool, ttl: real, now: real, readings: Option<seq<Reading>>) returns (items: Option<seq<Item>>)
      modifies this
      ensures (View(), items) == Published(old(View()), key, born, force, ttl, now, readings)
    {
      var previous := PeekAt(key, now, true);
      var merge := MergeReadings(readings, if previous.Some? then previous.value.items else [], now);
      if merge.None? {
        return None;
      }
      var lifetime := Clamp(ttl);
      if merge.value.failed && lifetime > 5.0 {
        lifetime := 5.0;
      }
      var limit := if merge.value.retained && previous.Some? then previous.value.retainUntil else now + RETENTION;
      if born != generation {
        return None;
      }
      entry := Some(Snapshot(nextId, key, now + lifetime, limit, merge.value.items, force, now, born));
      nextId := nextId + 1;
      items := Some(merge.value.items);
    }
  }

  // ----- age -----

  /** No content in the snapshot outlives its reading by more than the retention limit. */
  ghost predicate Aged(s: Snapshot) {
    && s.retainUntil <= s.publishedAt + RETENTION
    && forall i {:trigger s.items[i]} :: 0 <= i < |s.items| && s.items[i].updated ==>
         s.items[i].readAt <= s.publishedAt && s.retainUntil <= s.items[i].readAt + RETENTION
  }

  ghost predicate CacheAged(c: Cache, now: real) {
    c.entry.Some? ==> Aged(c.entry.value) && c.entry.value.publishedAt <= now
  }

  lemma {:induction false} KnownIsOld(previous: seq<Item>, server: string)
    ensures Known(previous, server).Some? ==>
              Known(previous, server).value.updated && Known(previous, server).value in previous
  {
    if previous != [] {
      KnownIsOld(previous[..|previous| - 1], server);
    }
  }

  lemma {:induction false} MergedAt(readings: seq<Reading>, n: nat, previous: seq<Item>, now: real)
    requires n <= |readings|
    ensures |MergedUpTo(readings, n, previous, now)| == n
    ensures forall i :: 0 <= i < n ==> MergedUpTo(readings, n, previous, now)[i] == Merged(readings[i], previous, now)
  {
    if n > 0 {
      MergedAt(readings, n - 1, previous, now);
    }
  }

  /** A merged item is old content of the previous snapshot or was read now; without retention it was read now. */
  lemma MergedItem(r: Reading, previous: seq<Item>, now: real)
    ensures var item := Merged(r, previous, now);
            item.readAt == now || (Retains(r, previous) && exists past :: past in previous && past.updated && past.readAt == item.readAt)
  {
    KnownIsOld(previous, r.server);
  }

  /** Publishing keeps every item within the retention limit of its reading, however often refreshes fail. */
  lemma PublishAged(c: Cache, key: string, born: nat, forced: bool, ttl: real, now: real, readings: Option<seq<Reading>>)
    requires CacheAged(c, now)
    ensures CacheAged(Published(c, key, born, forced, ttl, now, readings).0, now)
  {
    var previous := Peek(c, key, now, true);
    var past := ItemsOf(previous);
    var merge := MergeAll(readings, past, now);
    if merge.Some? && born == c.generation {
      var s := Refreshed(c, key, born, forced, ttl, now, merge.value);
      if readings.Some? {
        MergedAt(readings.value, |readings.value|, past, now);
      }
      forall i | 0 <= i < |s.items| && s.items[i].updated
        ensures s.items[i].readAt <= now && s.retainUntil <= s.items[i].readAt + RETENTION
      {
        if readings.Some? {
          MergedItem(readings.value[i], past, now);
          assert s.items[i] == Merged(readings.value[i], past, now);
        } else {
          assert s.items[i] == past[i].(stale := true);
        }
      }
    }
  }

  /** What a reader is shown was read successfully less than 300 seconds ago. */
  lemma PeekIsRecent(c: Cache, key: string, now: real, stale: bool, i: nat)
    requires CacheAged(c, now) && Peek(c, key, now, stale).Some?
    requires i < |Peek(c, key, now, stale).value.items| && Peek(c, key, now, stale).value.items[i].updated
    ensures Peek(c, key, now, stale).value.items[i].readAt <= now < Peek(c, key, now, stale).value.items[i].readAt + RETENTION
  {
  }
}
