/**
 * What a refresh of a media snapshot leaves in its cache, said of the readings
 * alone: whose content is kept, for how long it is shown, and when a refresh is
 * spared.
 */
module SnapshotMeaning {
  import opened Basics
  import opened SnapshotCache
  import opened SnapshotRuns

  // ----- what is shown -----

  /** A reader is shown the snapshot for its key while it may be retained and, unless stale content will do, is fresh. */
  lemma PeekIff(c: Cache, key: string, now: real, stale: bool)
    ensures Peek(c, key, now, stale).Some? <==>
            c.entry.Some? && c.entry.value.key == key && now < c.entry.value.retainUntil && (stale || now < c.entry.value.expiresAt)
    ensures Peek(c, key, now, stale).Some? ==> Peek(c, key, now, stale) == c.entry
  {
  }

  // ----- the parts of a refresh -----

  predicate Failing(r: Reading) {
    r.error || !r.online
  }

  /** The old content of a server: the last timed item it has. */
  predicate IsPast(previous: seq<Item>, server: string, p: nat) {
    && p < |previous| && previous[p].server == server && previous[p].updated
    && forall q :: p < q < |previous| ==> !(previous[q].server == server && previous[q].updated)
  }

  predicate HasPast(previous: seq<Item>, server: string) {
    exists p :: 0 <= p < |previous| && previous[p].server == server && previous[p].updated
  }

  /**
   * What is shown of one server: its old content if it failed, its new content
   * with the old time if it half failed, both marked stale; otherwise what was
   * read, as of now.
   */
  ghost predicate Shows(r: Reading, previous: seq<Item>, now: real, item: Item) {
    item.server == r.server &&
    if (Failing(r) || r.partial) && HasPast(previous, r.server) then
      exists p: nat :: IsPast(previous, r.server, p) && Keeps(r, previous[p], item)
    else
      item.value == r.value && item.updated == r.online && item.readAt == now && !item.stale && item.lists == r.lists
  }

  predicate Keeps(r: Reading, past: Item, item: Item) {
    && item.updated && item.stale && item.readAt == past.readAt
    && if Failing(r) then item.value == past.value && item.lists == past.lists
       else item.value == r.value && item.lists == r.lists + past.lists
  }

  lemma {:induction false} KnownIff(previous: seq<Item>, server: string)
    ensures Known(previous, server).Some? <==> HasPast(previous, server)
    ensures Known(previous, server).Some? ==> exists p: nat :: IsPast(previous, server, p) && Known(previous, server) == Some(previous[p])
  {
    if previous != [] {
      var last: nat := |previous| - 1;
      if previous[last].server == server && previous[last].updated {
        assert IsPast(previous, server, last);
      } else {
        KnownIff(previous[..last], server);
        assert previous == previous[..last] + [previous[last]];
        if Known(previous, server).Some? {
          var p: nat :| IsPast(previous[..last], server, p) && Known(previous, server) == Some(previous[..last][p]);
          assert IsPast(previous, server, p);
        }
        if HasPast(previous, server) {
          var p :| 0 <= p < |previous| && previous[p].server == server && previous[p].updated;
          assert previous[..last][p] == previous[p];
        }
      }
    }
  }

  lemma MergedShows(r: Reading, previous: seq<Item>, now: real)
    ensures Shows(r, previous, now, Merged(r, previous, now))
    ensures Retains(r, previous) <==> (Failing(r) || r.partial) && HasPast(previous, r.server)
  {
    KnownIff(previous, r.server);
    if (Failing(r) || r.partial) && HasPast(previous, r.server) {
      var p: nat :| IsPast(previous, r.server, p) && Known(previous, r.server) == Some(previous[p]);
      assert Keeps(r, previous[p], Merged(r, previous, now));
    }
  }

  /** Some content was kept because its server failed or half failed. */
  predicate Retained(readings: Option<seq<Reading>>, previous: seq<Item>) {
    readings.None? ||
    exists i :: 0 <= i < |readings.value| && (Failing(readings.value[i]) || readings.value[i].partial) && HasPast(previous, readings.value[i].server)
  }

  predicate Trouble(readings: Option<seq<Reading>>) {
    readings.None? || exists i :: 0 <= i < |readings.value| && (Failing(readings.value[i]) || readings.value[i].partial)
  }

  /** The content of a refreshed snapshot, server by server; all the old content, marked stale, if the refresh failed as a whole. */
  ghost predicate ShowsAll(readings: Option<seq<Reading>>, previous: seq<Item>, now: real, items: seq<Item>) {
    match readings
    case Some(rs) => |items| == |rs| && forall i :: 0 <= i < |rs| ==> Shows(rs[i], previous, now, items[i])
    case None => |items| == |previous| && forall i :: 0 <= i < |previous| ==> IsStale(previous[i], items[i])
  }

  predicate IsStale(was: Item, item: Item) {
    && item.stale && item.server == was.server && item.value == was.value && item.updated == was.updated
    && item.readAt == was.readAt && item.lists == was.lists
  }

  /** The lifetime asked for, between one second and five minutes, and at most five seconds after trouble. */
  predicate LastsFor(ttl: real, trouble: bool, lifetime: real) {
    var most := if trouble then 5.0 else 300.0;
    lifetime == if ttl <= 1.0 then 1.0 else if ttl >= most then most else ttl
  }

  lemma LifetimeIs(ttl: real, trouble: bool)
    ensures LastsFor(ttl, trouble, Lifetime(ttl, trouble))
  {
  }

  // ----- a refresh -----

  /** The content a refresh may fall back on. */
  function Previous(c: Cache, key: string, now: real): seq<Item> {
    if c.entry.Some? && c.entry.value.key == key && now < c.entry.value.retainUntil then c.entry.value.items else []
  }

  /** It has something to show, and nothing was invalidated while it loaded. */
  predicate Succeeds(c: Cache, key: string, born: nat, now: real, readings: Option<seq<Reading>>) {
    born == c.generation && (readings.Some? || Previous(c, key, now) != [])
  }

  /** The snapshot that a refresh leaves. */
  ghost predicate Leaves(c: Cache, key: string, born: nat, forced: bool, ttl: real, now: real, readings: Option<seq<Reading>>, s: Snapshot) {
    var previous := Previous(c, key, now);
    && s.id == c.nextId && s.key == key && s.born == born && s.forced == forced && s.publishedAt == now
    && ShowsAll(readings, previous, now, s.items)
    && LastsFor(ttl, Trouble(readings), s.expiresAt - now)
    && s.retainUntil == (if Retained(readings, previous) && previous != [] then c.entry.value.retainUntil else now + 300.0)
  }

  lemma PublishedMeans(c: Cache, key: string, born: nat, forced: bool, ttl: real, now: real, readings: Option<seq<Reading>>)
    ensures var (c', items) := Published(c, key, born, forced, ttl, now, readings);
            if Succeeds(c, key, born, now, readings) then
              && c'.entry.Some? && c'.generation == c.generation && c'.nextId == c.nextId + 1
              && Leaves(c, key, born, forced, ttl, now, readings, c'.entry.value) && items == Some(c'.entry.value.items)
            else c' == c && items.None?
  {
    if Succeeds(c, key, born, now, readings) {
      var previous := Previous(c, key, now);
      PeekIff(c, key, now, true);
      assert ItemsOf(Peek(c, key, now, true)) == previous;
      MergeMeans(readings, previous, now);
      LifetimeIs(ttl, Trouble(readings));
      NothingRetained(readings, previous);
    }
  }

  lemma MergeMeans(readings: Option<seq<Reading>>, previous: seq<Item>, now: real)
    requires readings.Some? || previous != []
    ensures var merge := MergeAll(readings, previous, now);
            && merge.Some? && ShowsAll(readings, previous, now, merge.value.items)
            && (merge.value.retained <==> Retained(readings, previous)) && (merge.value.failed <==> Trouble(readings))
  {
    if readings.Some? {
      var rs := readings.value;
      MergedAt(rs, |rs|, previous, now);
      forall i | 0 <= i < |rs|
        ensures Shows(rs[i], previous, now, MergedUpTo(rs, |rs|, previous, now)[i])
        ensures Retains(rs[i], previous) <==> (Failing(rs[i]) || rs[i].partial) && HasPast(previous, rs[i].server)
      {
        MergedShows(rs[i], previous, now);
      }
      TroubleIff(rs);
    }
  }

  lemma TroubleIff(rs: seq<Reading>)
    ensures AnyFailed(rs) <==> Trouble(Some(rs))
  {
    if AnyFailed(rs) {
      var i :| 0 <= i < |rs| && (Unavailable(rs[i]) || rs[i].partial);
      assert Failing(rs[i]) || rs[i].partial;
    }
    if Trouble(Some(rs)) {
      var i :| 0 <= i < |rs| && (Failing(rs[i]) || rs[i].partial);
      assert Unavailable(rs[i]) || rs[i].partial;
    }
  }

  lemma NothingRetained(readings: Option<seq<Reading>>, previous: seq<Item>)
    ensures previous == [] && readings.Some? ==> !Retained(readings, previous)
  {
  }

  // ----- over runs -----

  /** Each finished load leaves in its cache what the refresh makes, or leaves it alone. */
  lemma RefreshMeans(states: seq<World>, steps: seq<Step>, i: nat)
    requires Run(states, steps) && i < |steps|
    ensures steps[i].RecentPublish? ==> RefreshedBy(states[i].recent, states[i + 1].recent, states[i].recentLoads, steps[i], states[i].now)
    ensures steps[i].DashPublish? ==> RefreshedBy(states[i].dash, states[i + 1].dash, states[i].dashLoads, steps[i], states[i].now)
  {
    assert Follows(states[i], steps[i], states[i + 1]);
    var (w, step) := (states[i], steps[i]);
    if step.RecentPublish? {
      var load := w.recentLoads[step.l];
      PublishedMeans(w.recent, step.key, load.born, load.force, step.ttl, w.now, step.readings);
    } else if step.DashPublish? {
      var load := w.dashLoads[step.l];
      PublishedMeans(w.dash, step.key, load.born, load.force, step.ttl, w.now, step.readings);
    }
  }

  ghost predicate RefreshedBy(c: Cache, c': Cache, loads: map<nat, Load>, step: Step, now: real)
    requires step.RecentPublish? || step.DashPublish?
  {
    && step.l in loads && loads[step.l].Loading?
    && Refreshes(c, c', step.key, loads[step.l].born, loads[step.l].force, step.ttl, now, step.readings)
  }

  ghost predicate Refreshes(c: Cache, c': Cache, key: string, born: nat, forced: bool, ttl: real, now: real, readings: Option<seq<Reading>>) {
    if Succeeds(c, key, born, now, readings) then
      && c'.entry.Some? && c'.generation == c.generation && c'.nextId == c.nextId + 1
      && Leaves(c, key, born, forced, ttl, now, readings, c'.entry.value)
    else c' == c
  }

  /** Nothing else writes to the cache of recent media but an invalidation, which ends freshness at once. */
  lemma RecentStep(states: seq<World>, steps: seq<Step>, i: nat)
    requires Run(states, steps) && i < |steps| && !steps[i].RecentPublish?
    ensures var (c, c') := (states[i].recent, states[i + 1].recent);
            if steps[i].InvalidateRecent? then
              && c'.generation == c.generation + 1 && c'.nextId == c.nextId
              && (c'.entry.Some? <==> steps[i].keepStale && c.entry.Some?)
              && (c'.entry.Some? ==> c'.entry.value == c.entry.value.(expiresAt := 0.0))
            else c' == c
  {
    assert Follows(states[i], steps[i], states[i + 1]);
  }

  lemma DashStep(states: seq<World>, steps: seq<Step>, i: nat)
    requires Run(states, steps) && i < |steps| && !steps[i].DashPublish?
    ensures var (c, c') := (states[i].dash, states[i + 1].dash);
            if steps[i].InvalidateDash? then
              && c'.generation == c.generation + 1 && c'.nextId == c.nextId
              && (c'.entry.Some? <==> steps[i].keepStale && c.entry.Some?)
              && (c'.entry.Some? ==> c'.entry.value == c.entry.value.(expiresAt := 0.0))
            else c' == c
  {
    assert Follows(states[i], steps[i], states[i + 1]);
  }

  /** Time passes in its own steps, and in no other. */
  lemma ClockStep(states: seq<World>, steps: seq<Step>, i: nat)
    requires Run(states, steps) && i < |steps|
    ensures states[i + 1].now == (if steps[i].Tick? then steps[i].now else states[i].now) >= states[i].now
  {
    assert Follows(states[i], steps[i], states[i + 1]);
  }

  /** The load at step `p` was stored. */
  predicate StoredAt(states: seq<World>, steps: seq<Step>, p: nat)
    requires |states| == |steps| + 1 && p < |steps|
  {
    steps[p].RecentPublish? && states[p + 1].recent.nextId == states[p].recent.nextId + 1
  }

  ghost predicate NoneStored(states: seq<World>, steps: seq<Step>, i: nat, j: nat)
    requires |states| == |steps| + 1 && j <= |steps|
  {
    forall p: nat :: i <= p < j ==> !StoredAt(states, steps, p)
  }

  /** Without a stored load the slot keeps its snapshot, or loses it. */
  lemma {:induction false} SlotKept(states: seq<World>, steps: seq<Step>, i: nat, j: nat)
    requires Run(states, steps) && i <= j <= |steps| && NoneStored(states, steps, i, j)
    ensures states[j].recent.entry.Some? ==> states[i].recent.entry.Some? && states[j].recent.entry.value.id == states[i].recent.entry.value.id
  {
    if i < j {
      SlotKept(states, steps, i, j - 1);
      assert !StoredAt(states, steps, j - 1);
      if steps[j - 1].RecentPublish? {
        RefreshMeans(states, steps, j - 1);
      } else {
        RecentStep(states, steps, j - 1);
      }
    }
  }

  /**
   * A load waiting for its turn is spared exactly if the slot holds a fresh
   * snapshot and, if it is forced, that snapshot is the work of another forced
   * load and not the one in the slot when it queued up.
   */
  predicate SparedOrLoading(c: Cache, key: string, now: real, load: Load, load': Load) {
    && load.Queued?
    && load' == if c.entry.Some? && c.entry.value.key == key && now < c.entry.value.expiresAt && now < c.entry.value.retainUntil
                   && (load.force ==> c.entry.value.forced && load.seen != Some(c.entry.value.id))
                then Ended else Loading(load.born, load.force, map[])
  }

  /** Of either cache, whenever a load gets its turn. */
  lemma SparedIff(states: seq<World>, steps: seq<Step>, j: nat)
    requires Run(states, steps) && j < |steps|
    ensures var (w, w', step) := (states[j], states[j + 1], steps[j]);
            && (step.RecentStart? ==> step.l in w.recentLoads && step.l in w'.recentLoads &&
                                      SparedOrLoading(w.recent, step.key, w.now, w.recentLoads[step.l], w'.recentLoads[step.l]))
            && (step.DashStart? ==> step.l in w.dashLoads && step.l in w'.dashLoads &&
                                    SparedOrLoading(w.dash, step.key, w.now, w.dashLoads[step.l], w'.dashLoads[step.l]))
  {
    assert Follows(states[j], steps[j], states[j + 1]);
    if steps[j].RecentStart? {
      PeekIff(states[j].recent, steps[j].key, states[j].now, false);
    } else if steps[j].DashStart? {
      PeekIff(states[j].dash, steps[j].key, states[j].now, false);
    }
  }

  /** What a load remembers of the slot as it was when the load came. */
  predicate Remembers(c: Cache, load: Load, force: bool) {
    match load
    case Queued(born, seen, forced) => born == c.generation && forced == force && seen == if c.entry.Some? then Some(c.entry.value.id) else None
    case Loading(born, forced, _) => born == c.generation && forced == force
    case Ended => true
  }

  lemma {:induction false} SeenAtBegin(states: seq<World>, steps: seq<Step>, i: nat, j: nat)
    requires Run(states, steps) && i < j <= |steps|
    ensures steps[i].RecentBegin? ==>
              steps[i].l in states[j].recentLoads && Remembers(states[i].recent, states[j].recentLoads[steps[i].l], steps[i].force)
    ensures steps[i].DashBegin? ==>
              steps[i].l in states[j].dashLoads && Remembers(states[i].dash, states[j].dashLoads[steps[i].l], steps[i].force)
  {
    if i + 1 < j {
      SeenAtBegin(states, steps, i, j - 1);
      assert Follows(states[j - 1], steps[j - 1], states[j]);
      RememberStep(states[j - 1], steps[j - 1], states[i], steps[i]);
    } else {
      assert Follows(states[i], steps[i], states[j]);
    }
  }

  lemma RememberStep(w: World, step: Step, was: World, begin: Step)
    requires Enabled(w, step)
    ensures begin.RecentBegin? && begin.l in w.recentLoads && Remembers(was.recent, w.recentLoads[begin.l], begin.force) ==>
              begin.l in Apply(w, step).recentLoads && Remembers(was.recent, Apply(w, step).recentLoads[begin.l], begin.force)
    ensures begin.DashBegin? && begin.l in w.dashLoads && Remembers(was.dash, w.dashLoads[begin.l], begin.force) ==>
              begin.l in Apply(w, step).dashLoads && Remembers(was.dash, Apply(w, step).dashLoads[begin.l], begin.force)
  {
  }

  /** A forced load is spared only by a snapshot that was stored after it had come. */
  lemma ForcedGetsNewer(states: seq<World>, steps: seq<Step>, i: nat, j: nat)
    requires Run(states, steps) && i < j < |steps| && steps[i].RecentBegin? && steps[i].force
    requires steps[j].RecentStart? && steps[j].l == steps[i].l && states[j + 1].recentLoads[steps[j].l].Ended?
    ensures !NoneStored(states, steps, i, j)
  {
    SeenAtBegin(states, steps, i, j);
    SparedIff(states, steps, j);
    if NoneStored(states, steps, i, j) {
      SlotKept(states, steps, i, j);
    }
  }

  /** No load is stored twice. */
  lemma StoredOnce(states: seq<World>, steps: seq<Step>, i: nat, j: nat)
    requires Run(states, steps) && i < j < |steps|
    ensures steps[i].RecentPublish? && steps[j].RecentPublish? ==> steps[i].l != steps[j].l
    ensures steps[i].DashPublish? && steps[j].DashPublish? ==> steps[i].l != steps[j].l
  {
    EndedStays(states, steps, i, j);
    assert Follows(states[j], steps[j], states[j + 1]);
  }

  lemma {:induction false} EndedStays(states: seq<World>, steps: seq<Step>, i: nat, j: nat)
    requires Run(states, steps) && i < j <= |steps|
    ensures steps[i].RecentPublish? ==> steps[i].l in states[j].recentLoads && states[j].recentLoads[steps[i].l].Ended?
    ensures steps[i].DashPublish? ==> steps[i].l in states[j].dashLoads && states[j].dashLoads[steps[i].l].Ended?
  {
    assert Follows(states[j - 1], steps[j - 1], states[j]);
    if i + 1 < j {
      EndedStays(states, steps, i, j - 1);
    }
  }

  // ----- reuse of recent lists -----

  /** A dashboard reuses the recent list for a server exactly if the list is fresh and that server's part of it was read and is not stale. */
  lemma ReuseMeans(states: seq<World>, steps: seq<Step>, i: nat)
    requires Run(states, steps) && i < |steps| && steps[i].Reuse?
    ensures steps[i].l in states[i].dashLoads && states[i].dashLoads[steps[i].l].Loading?
    ensures var (c, l, server, key, now) := (states[i].recent, steps[i].l, steps[i].server, steps[i].key, states[i].now);
            && l in states[i + 1].dashLoads && states[i + 1].dashLoads[l].Loading?
            && var (before, after) := (states[i].dashLoads[l].lists, states[i + 1].dashLoads[l].lists);
               && server in after
               && after[server] == (if ReusableFor(c, server, key, now) then {c.entry.value.born} else {})
               && (forall s :: s != server ==> (s in after <==> s in before) && (s in before ==> after[s] == before[s]))
  {
    assert Follows(states[i], steps[i], states[i + 1]);
    PeekIff(states[i].recent, steps[i].key, states[i].now, false);
    if states[i].recent.entry.Some? {
      GoodIff(states[i].recent.entry.value, steps[i].server);
    }
  }

  lemma GoodIff(s: Snapshot, server: string)
    ensures Reusable(s, server) <==> exists i :: 0 <= i < |s.items| && IsGood(s.items[i], server)
  {
    if Reusable(s, server) {
      var i :| 0 <= i < |s.items| && s.items[i].server == server && s.items[i].updated && !s.items[i].stale;
      assert IsGood(s.items[i], server);
    }
    if i :| 0 <= i < |s.items| && IsGood(s.items[i], server) {
      assert s.items[i].server == server && s.items[i].updated && !s.items[i].stale;
    }
  }

  predicate IsGood(item: Item, server: string) {
    item.server == server && item.updated && !item.stale
  }

  predicate ReusableFor(c: Cache, server: string, key: string, now: real) {
    && c.entry.Some? && c.entry.value.key == key && now < c.entry.value.retainUntil && now < c.entry.value.expiresAt
    && exists i :: 0 <= i < |c.entry.value.items| && IsGood(c.entry.value.items[i], server)
  }
}
