/**
 * The two snapshot caches of app/services.py at work together: loads of recent
 * media and of dashboards, dashboards that reuse the recent list, and
 * invalidations, one step each, in every order. The recent cache is invalidated
 * before the dashboards.
 */
module SnapshotRuns {
  import opened Basics
  import opened SnapshotCache

  /** A load between its first look at the slot and its end. */
  datatype Load =
    | Queued(born: nat, seen: Option<nat>, force: bool)
    | Loading(born: nat, force: bool, lists: map<string, set<nat>>)
    | Ended

  /**
   * `soft` is the recent-media generation at the last invalidation of the
   * dashboards, `hard` that at the last one which kept nothing.
   */
  datatype World = World(now: real, recent: Cache, dash: Cache, recentLoads: map<nat, Load>, dashLoads: map<nat, Load>, soft: nat, hard: nat)

  datatype Step =
    | Tick(now: real)
    | RecentBegin(l: nat, force: bool)
    | RecentStart(l: nat, key: string)
    | RecentPublish(l: nat, key: string, ttl: real, readings: Option<seq<Reading>>)
    | DashBegin(l: nat, force: bool)
    | DashStart(l: nat, key: string)
    | Reuse(l: nat, server: string, key: string)
    | DashPublish(l: nat, key: string, ttl: real, readings: Option<seq<Reading>>)
    | InvalidateRecent(keepStale: bool)
    | InvalidateDash(keepStale: bool)

  function Seen(c: Cache): Option<nat> {
    if c.entry.Some? then Some(c.entry.value.id) else None
  }

  /** The recent list may be reused for a server if the server's own part was read without an error and is not stale. */
  predicate Reusable(s: Snapshot, server: string) {
    exists i :: 0 <= i < |s.items| && s.items[i].server == server && s.items[i].updated && !s.items[i].stale
  }

  /** A reading uses no list but those its load took for that server. */
  ghost predicate UsesOwnLists(readings: Option<seq<Reading>>, lists: map<string, set<nat>>) {
    readings.Some? ==> forall i {:trigger readings.value[i]} :: 0 <= i < |readings.value| ==>
      readings.value[i].lists <= if readings.value[i].server in lists then lists[readings.value[i].server] else {}
  }

  ghost predicate Enabled(w: World, step: Step) {
    match step
    case Tick(now) => w.now <= now
    case RecentBegin(l, _) => l !in w.recentLoads
    case RecentStart(l, _) => l in w.recentLoads && w.recentLoads[l].Queued?
    case RecentPublish(l, _, _, readings) => l in w.recentLoads && w.recentLoads[l].Loading? && UsesOwnLists(readings, map[])
    case DashBegin(l, _) => l !in w.dashLoads
    case DashStart(l, _) => l in w.dashLoads && w.dashLoads[l].Queued?
    case Reuse(l, _, _) => l in w.dashLoads && w.dashLoads[l].Loading? && !w.dashLoads[l].force
    case DashPublish(l, _, _, readings) => l in w.dashLoads && w.dashLoads[l].Loading? && UsesOwnLists(readings, w.dashLoads[l].lists)
    case _ => true
  }

  function Started(c: Cache, load: Load, key: string, now: real): Load
    requires load.Queued?
  {
    if Answers(Peek(c, key, now, false), load.seen, load.force) then Ended else Loading(load.born, load.force, map[])
  }

  /** A fresh peek at the recent media: the generation of the list it takes, if any. */
  function Taken(w: World, server: string, key: string): set<nat> {
    var recent := Peek(w.recent, key, w.now, false);
    if recent.Some? && Reusable(recent.value, server) then {recent.value.born} else {}
  }

  function Apply(w: World, step: Step): World
    requires Enabled(w, step)
  {
    match step
    case Tick(now) => w.(now := now)
    case RecentBegin(l, force) => w.(recentLoads := w.recentLoads[l := Queued(w.recent.generation, Seen(w.recent), force)])
    case RecentStart(l, key) => w.(recentLoads := w.recentLoads[l := Started(w.recent, w.recentLoads[l], key, w.now)])
    case RecentPublish(l, key, ttl, readings) =>
      var load := w.recentLoads[l];
      w.(recent := Published(w.recent, key, load.born, load.force, ttl, w.now, readings).0, recentLoads := w.recentLoads[l := Ended])
    case DashBegin(l, force) => w.(dashLoads := w.dashLoads[l := Queued(w.dash.generation, Seen(w.dash), force)])
    case DashStart(l, key) => w.(dashLoads := w.dashLoads[l := Started(w.dash, w.dashLoads[l], key, w.now)])
    case Reuse(l, server, key) =>
      var load := w.dashLoads[l];
      w.(dashLoads := w.dashLoads[l := load.(lists := load.lists[server := Taken(w, server, key)])])
    case DashPublish(l, key, ttl, readings) =>
      var load := w.dashLoads[l];
      w.(dash := Published(w.dash, key, load.born, load.force, ttl, w.now, readings).0, dashLoads := w.dashLoads[l := Ended])
    case InvalidateRecent(keepStale) => w.(recent := Invalidated(w.recent, keepStale))
    case InvalidateDash(keepStale) =>
      w.(dash := Invalidated(w.dash, keepStale), soft := w.recent.generation, hard := if keepStale then w.hard else w.recent.generation)
  }

  const EMPTY := World(0.0, Cache(None, 0, 0), Cache(None, 0, 0), map[], map[], 0, 0)

  // ----- the invariant -----

  /** A snapshot that can still be fresh was loaded under the current generation. */
  predicate FreshIsCurrent(c: Cache) {
    c.entry.Some? && c.entry.value.expiresAt > 0.0 ==> c.entry.value.born == c.generation
  }

  ghost predicate AllFrom(lists: set<nat>, floor: nat) {
    forall g :: g in lists ==> floor <= g
  }

  /** A load that can still be stored took no recent list from before the last invalidation of the dashboards. */
  ghost predicate LoadOk(load: Load, generation: nat, soft: nat) {
    match load
    case Queued(born, _, _) => born <= generation
    case Loading(born, _, lists) => born <= generation && (born == generation ==> forall s :: s in lists ==> AllFrom(lists[s], soft))
    case Ended => true
  }

  /** A board shown as current uses no list older than `soft`, one marked stale none older than `hard`. */
  ghost predicate ItemOk(item: Item, soft: nat, hard: nat) {
    AllFrom(item.lists, hard) && (!item.stale ==> AllFrom(item.lists, soft))
  }

  /** Boards kept over an invalidation are not fresh until they are read again. */
  ghost predicate BoardsOk(c: Cache, soft: nat, hard: nat) {
    c.entry.Some? ==>
      forall i {:trigger c.entry.value.items[i]} :: 0 <= i < |c.entry.value.items| ==>
        ItemOk(c.entry.value.items[i], if c.entry.value.expiresAt > 0.0 then soft else hard, hard)
  }

  ghost predicate Inv(w: World) {
    && w.now >= 0.0 && w.hard <= w.soft <= w.recent.generation
    && FreshIsCurrent(w.recent) && CacheAged(w.recent, w.now) && CacheAged(w.dash, w.now)
    && (forall l {:trigger w.dashLoads[l]} :: l in w.dashLoads ==> LoadOk(w.dashLoads[l], w.dash.generation, w.soft))
    && BoardsOk(w.dash, w.soft, w.hard)
  }

  lemma InvRecentPublish(w: World, l: nat, key: string, ttl: real, readings: Option<seq<Reading>>)
    requires Inv(w) && Enabled(w, RecentPublish(l, key, ttl, readings))
    ensures Inv(Apply(w, RecentPublish(l, key, ttl, readings)))
  {
    var load := w.recentLoads[l];
    PublishAged(w.recent, key, load.born, load.force, ttl, w.now, readings);
    PublishFresh(w.recent, key, load.born, load.force, ttl, w.now, readings);
  }

  lemma PublishFresh(c: Cache, key: string, born: nat, forced: bool, ttl: real, now: real, readings: Option<seq<Reading>>)
    requires FreshIsCurrent(c) && now >= 0.0
    ensures var c' := Published(c, key, born, forced, ttl, now, readings).0; FreshIsCurrent(c') && c'.generation == c.generation
  {
  }

  /** What is merged comes from this load, which respects `soft`, or is kept and marked stale. */
  lemma MergedOk(r: Reading, previous: seq<Item>, now: real, soft: nat, hard: nat)
    requires hard <= soft && AllFrom(r.lists, soft)
    requires forall i {:trigger previous[i]} :: 0 <= i < |previous| ==> AllFrom(previous[i].lists, hard)
    ensures ItemOk(Merged(r, previous, now), soft, hard)
  {
    KnownIsOld(previous, r.server);
  }

  lemma PublishBoards(c: Cache, key: string, load: Load, ttl: real, now: real, readings: Option<seq<Reading>>, soft: nat, hard: nat)
    requires load.Loading? && LoadOk(load, c.generation, soft) && UsesOwnLists(readings, load.lists)
    requires BoardsOk(c, soft, hard) && hard <= soft && now >= 0.0
    ensures BoardsOk(Published(c, key, load.born, load.force, ttl, now, readings).0, soft, hard)
  {
    var previous := ItemsOf(Peek(c, key, now, true));
    var merge := MergeAll(readings, previous, now);
    if merge.Some? && load.born == c.generation {
      var items := merge.value.items;
      if readings.Some? {
        MergedAt(readings.value, |readings.value|, previous, now);
      }
      forall i | 0 <= i < |items| ensures ItemOk(items[i], soft, hard) {
        if readings.Some? {
          ReadingOk(load.lists, readings.value[i], soft);
          MergedOk(readings.value[i], previous, now, soft, hard);
        } else {
          assert items[i] == previous[i].(stale := true);
        }
      }
    }
  }

  lemma ReadingOk(lists: map<string, set<nat>>, r: Reading, soft: nat)
    requires r.lists <= if r.server in lists then lists[r.server] else {}
    requires forall s :: s in lists ==> AllFrom(lists[s], soft)
    ensures AllFrom(r.lists, soft)
  {
  }

  lemma InvDashPublish(w: World, l: nat, key: string, ttl: real, readings: Option<seq<Reading>>)
    requires Inv(w) && Enabled(w, DashPublish(l, key, ttl, readings))
    ensures Inv(Apply(w, DashPublish(l, key, ttl, readings)))
  {
    var load := w.dashLoads[l];
    PublishAged(w.dash, key, load.born, load.force, ttl, w.now, readings);
    PublishBoards(w.dash, key, load, ttl, w.now, readings, w.soft, w.hard);
  }

  lemma InvReuse(w: World, l: nat, server: string, key: string)
    requires Inv(w) && Enabled(w, Reuse(l, server, key))
    ensures Inv(Apply(w, Reuse(l, server, key)))
  {
    var load := w.dashLoads[l];
    var lists := load.lists[server := Taken(w, server, key)];
    assert LoadOk(load, w.dash.generation, w.soft);
    forall s | s in lists && load.born == w.dash.generation ensures AllFrom(lists[s], w.soft) {
    }
  }

  lemma InvInvalidateDash(w: World, keepStale: bool)
    requires Inv(w)
    ensures Inv(Apply(w, InvalidateDash(keepStale)))
  {
    var w' := Apply(w, InvalidateDash(keepStale));
    forall l | l in w'.dashLoads ensures LoadOk(w'.dashLoads[l], w'.dash.generation, w'.soft) {
      assert LoadOk(w.dashLoads[l], w.dash.generation, w.soft);
    }
  }

  lemma InvStep(w: World, step: Step)
    requires Inv(w) && Enabled(w, step)
    ensures Inv(Apply(w, step))
  {
    match step
    case Tick(now) =>
    case RecentBegin(l, force) =>
    case RecentStart(l, key) =>
    case RecentPublish(l, key, ttl, readings) => InvRecentPublish(w, l, key, ttl, readings);
    case DashBegin(l, force) =>
    case DashStart(l, key) =>
    case Reuse(l, server, key) => InvReuse(w, l, server, key);
    case DashPublish(l, key, ttl, readings) => InvDashPublish(w, l, key, ttl, readings);
    case InvalidateRecent(keepStale) =>
    case InvalidateDash(keepStale) => InvInvalidateDash(w, keepStale);
  }

  // ----- runs -----

  ghost predicate Follows(w: World, step: Step, w': World) {
    Enabled(w, step) && w' == Apply(w, step)
  }

  ghost predicate Run(states: seq<World>, steps: seq<Step>) {
    && |states| == |steps| + 1 && states[0] == EMPTY
    && forall i :: 0 <= i < |steps| ==> Follows(states[i], steps[i], states[i + 1])
  }

  lemma {:induction false} InvAlways(states: seq<World>, steps: seq<Step>, i: nat)
    requires Run(states, steps) && i <= |steps|
    ensures Inv(states[i])
  {
    if i > 0 {
      InvAlways(states, steps, i - 1);
      assert Follows(states[i - 1], steps[i - 1], states[i]);
      InvStep(states[i - 1], steps[i - 1]);
    }
  }

  predicate Grown(w: World, w': World) {
    && w.recent.generation <= w'.recent.generation && w.dash.generation <= w'.dash.generation
    && w.soft <= w'.soft && w.hard <= w'.hard
  }

  lemma GrownStep(w: World, step: Step)
    requires Inv(w) && Enabled(w, step)
    ensures Grown(w, Apply(w, step))
  {
    match step
    case RecentPublish(l, key, ttl, readings) => PublishFresh(w.recent, key, w.recentLoads[l].born, w.recentLoads[l].force, ttl, w.now, readings);
    case DashPublish(l, key, ttl, readings) =>
    case _ =>
  }

  lemma {:induction false} GrownAlways(states: seq<World>, steps: seq<Step>, i: nat, j: nat)
    requires Run(states, steps) && i <= j <= |steps|
    ensures Grown(states[i], states[j])
  {
    if i < j {
      GrownAlways(states, steps, i, j - 1);
      InvAlways(states, steps, j - 1);
      assert Follows(states[j - 1], steps[j - 1], states[j]);
      GrownStep(states[j - 1], steps[j - 1]);
    }
  }

  /**
   * Bounded age: at any time, whatever a reader is shown of a server, of either
   * cache, fresh or stale, was read successfully less than 300 seconds before.
   */
  lemma ShownIsRecent(states: seq<World>, steps: seq<Step>, i: nat, key: string, stale: bool)
    requires Run(states, steps) && i <= |steps|
    ensures ShownWithin(Peek(states[i].recent, key, states[i].now, stale), states[i].now)
    ensures ShownWithin(Peek(states[i].dash, key, states[i].now, stale), states[i].now)
  {
    InvAlways(states, steps, i);
    AgedIsShownWithin(states[i].recent, key, states[i].now, stale);
    AgedIsShownWithin(states[i].dash, key, states[i].now, stale);
  }

  lemma AgedIsShownWithin(c: Cache, key: string, now: real, stale: bool)
    requires CacheAged(c, now)
    ensures ShownWithin(Peek(c, key, now, stale), now)
  {
    var shown := Peek(c, key, now, stale);
    if shown.Some? {
      forall i | 0 <= i < |shown.value.items| && shown.value.items[i].updated
        ensures shown.value.items[i].readAt <= now < shown.value.items[i].readAt + RETENTION
      {
        PeekIsRecent(c, key, now, stale, i);
      }
    }
  }

  ghost predicate ShownWithin(s: Option<Snapshot>, now: real) {
    s.Some? ==> forall i {:trigger s.value.items[i]} :: 0 <= i < |s.value.items| && s.value.items[i].updated ==>
                  s.value.items[i].readAt <= now < s.value.items[i].readAt + 300.0
  }

  /** What a dashboard load uses of the recent media, and what it began under, stays with it until it ends. */
  lemma {:induction false} BornAtBegin(states: seq<World>, steps: seq<Step>, i: nat, j: nat, l: nat)
    requires Run(states, steps) && i < j <= |steps| && steps[i].RecentBegin? && steps[i].l == l
    ensures l in states[j].recentLoads
    ensures states[j].recentLoads[l].Ended? || states[j].recentLoads[l].born == states[i].recent.generation
  {
    if i + 1 == j {
      assert Follows(states[i], steps[i], states[j]);
    } else {
      BornAtBegin(states, steps, i, j - 1, l);
      assert Follows(states[j - 1], steps[j - 1], states[j]);
    }
  }

  /** A load begun before an invalidation is never stored after it. */
  lemma NotStoredAfterInvalidation(states: seq<World>, steps: seq<Step>, i: nat, h: nat, j: nat, l: nat)
    requires Run(states, steps) && i < h < j < |steps|
    requires steps[i].RecentBegin? && steps[i].l == l && steps[h].InvalidateRecent? && steps[j].RecentPublish? && steps[j].l == l
    ensures states[j + 1].recent == states[j].recent
  {
    BornAtBegin(states, steps, i, j, l);
    GrownAlways(states, steps, i, h);
    assert Follows(states[h], steps[h], states[h + 1]);
    GrownAlways(states, steps, h + 1, j);
    assert Follows(states[j], steps[j], states[j + 1]);
  }

  /**
   * After a clear (the recent media at step `h`, then the dashboards at `i`), no
   * board shown as current uses a recent list loaded before the clear; and if
   * the clear kept nothing, no board at all does.
   */
  lemma ClearedListsGone(states: seq<World>, steps: seq<Step>, h: nat, i: nat, j: nat, k: nat)
    requires Run(states, steps) && h < i < j <= |steps|
    requires steps[h].InvalidateRecent? && steps[i].InvalidateDash?
    requires states[j].dash.entry.Some? && k < |states[j].dash.entry.value.items|
    ensures var s := states[j].dash.entry.value;
            (s.expiresAt > 0.0 && !s.items[k].stale) || !steps[i].keepStale ==>
              forall g :: g in s.items[k].lists ==> g > states[h].recent.generation
  {
    assert Follows(states[h], steps[h], states[h + 1]);
    GrownAlways(states, steps, h + 1, i);
    assert Follows(states[i], steps[i], states[i + 1]);
    GrownAlways(states, steps, i + 1, j);
    InvAlways(states, steps, j);
    var s := states[j].dash.entry.value;
    assert ItemOk(s.items[k], if s.expiresAt > 0.0 then states[j].soft else states[j].hard, states[j].hard);
  }

  // ----- which boards still use an earlier list -----

  /** Item `k` of the dashboard snapshot uses a recent list loaded under a generation before `floor`. */
  ghost predicate Uses(w: World, k: nat, floor: nat) {
    w.dash.entry.Some? && k < |w.dash.entry.value.items| && !AllFrom(w.dash.entry.value.items[k].lists, floor)
  }

  /** The load has readings or something to show instead, and nothing was invalidated since it began. */
  predicate Stores(w: World, step: Step) {
    && step.DashPublish? && step.l in w.dashLoads && w.dashLoads[step.l].Loading? && w.dashLoads[step.l].born == w.dash.generation
    && (step.readings.Some? || Kept(w, step) != [])
  }

  /** The boards a refresh may fall back on. */
  function Kept(w: World, step: Step): seq<Item>
    requires step.DashPublish?
  {
    ItemsOf(Peek(w.dash, step.key, w.now, true))
  }

  /** The kept board that item `k` of a refresh falls back on: there is one exactly if its own reading failed. */
  function FallsBackOn(readings: Option<seq<Reading>>, previous: seq<Item>, k: nat): Option<nat> {
    match readings
    case None => Some(k)
    case Some(rs) => if k < |rs| && Retains(rs[k], previous) then KnownAt(previous, rs[k].server) else None
  }

  /** The board before the step from which board `k` after the step has its content. */
  function Before(w: World, step: Step, k: nat): Option<nat> {
    if Stores(w, step) then FallsBackOn(step.readings, Kept(w, step), k)
    else if step.InvalidateDash? && !step.keepStale then None
    else Some(k)
  }

  lemma FallsBack(r: Reading, previous: seq<Item>, now: real, soft: nat, floor: nat)
    requires AllFrom(r.lists, soft) && floor <= soft
    ensures !AllFrom(Merged(r, previous, now).lists, floor) <==>
            Retains(r, previous) && !AllFrom(Known(previous, r.server).value.lists, floor)
  {
  }

  lemma StoredUses(w: World, step: Step, k: nat, floor: nat)
    requires Inv(w) && Enabled(w, step) && Stores(w, step) && floor <= w.soft
    ensures var before := FallsBackOn(step.readings, Kept(w, step), k);
            Uses(Apply(w, step), k, floor) <==> before.Some? && Uses(w, before.value, floor)
  {
    var previous, load, readings := Kept(w, step), w.dashLoads[step.l], step.readings;
    assert LoadOk(load, w.dash.generation, w.soft);
    match readings
    case None =>
    case Some(rs) =>
      MergedAt(rs, |rs|, previous, w.now);
      if k < |rs| {
        ReadingOk(load.lists, rs[k], w.soft);
        FallsBack(rs[k], previous, w.now, w.soft, floor);
      }
  }

  lemma UsesStep(w: World, step: Step, k: nat, floor: nat)
    requires Inv(w) && Enabled(w, step) && floor <= w.soft
    ensures var before := Before(w, step, k); Uses(Apply(w, step), k, floor) <==> before.Some? && Uses(w, before.value, floor)
  {
    if Stores(w, step) {
      StoredUses(w, step, k, floor);
    } else if step.DashPublish? {
      assert Apply(w, step).dash == w.dash;
    }
  }

  /**
   * The board at step `i` whose content board `k` at step `j` still shows: it was
   * kept by the invalidation at `i`, and its reading failed in every refresh
   * stored since.
   */
  function Origin(states: seq<World>, steps: seq<Step>, i: nat, j: nat, k: nat): Option<nat>
    requires i < j <= |steps| && |states| == |steps| + 1
    decreases j
  {
    var before := Before(states[j - 1], steps[j - 1], k);
    if j == i + 1 || before.None? then before else Origin(states, steps, i, j - 1, before.value)
  }

  /**
   * After a clear (the recent media at step `h`, then the dashboards at `i`), a
   * board uses a recent list from before the clear if and only if it goes back,
   * through nothing but failed readings, to a board that used one and that the
   * clear kept.
   */
  lemma {:induction false} ClearedListIff(states: seq<World>, steps: seq<Step>, h: nat, i: nat, j: nat, k: nat)
    requires Run(states, steps) && h < i < j <= |steps|
    requires steps[h].InvalidateRecent? && steps[i].InvalidateDash?
    ensures var floor, origin := states[h].recent.generation + 1, Origin(states, steps, i, j, k);
            Uses(states[j], k, floor) <==> origin.Some? && Uses(states[i], origin.value, floor)
    decreases j
  {
    var w, step, floor := states[j - 1], steps[j - 1], states[h].recent.generation + 1;
    assert Follows(states[h], steps[h], states[h + 1]);
    assert Follows(states[i], steps[i], states[i + 1]);
    assert Follows(w, step, states[j]);
    if j > i + 1 {
      GrownAlways(states, steps, h + 1, i);
      GrownAlways(states, steps, i + 1, j - 1);
      InvAlways(states, steps, j - 1);
      UsesStep(w, step, k, floor);
      var before := Before(w, step, k);
      if before.Some? {
        ClearedListIff(states, steps, h, i, j - 1, before.value);
      }
    }
  }

  lemma Prolong(states: seq<World>, steps: seq<Step>, step: Step) returns (states': seq<World>, steps': seq<Step>)
    requires Run(states, steps) && Enabled(states[|steps|], step)
    ensures Run(states', steps') && steps' == steps + [step] && states' == states + [Apply(states[|steps|], step)]
  {
    states', steps' := states + [Apply(states[|steps|], step)], steps + [step];
    forall i | 0 <= i < |steps'| ensures Follows(states'[i], steps'[i], states'[i + 1]) {
      if i < |steps| {
        assert Follows(states[i], steps[i], states[i + 1]);
      }
    }
  }

  /** A fresh recent list of one server. */
  lemma FirstList(server: string, recentKey: string) returns (states: seq<World>, steps: seq<Step>)
    ensures Run(states, steps) && |steps| == 3
    ensures states[3] == World(0.0, Cache(Some(ListOf(server, recentKey)), 0, 1), Cache(None, 0, 0), map[0 := Ended], map[], 0, 0)
  {
    states, steps := [EMPTY], [];
    states, steps := Prolong(states, steps, RecentBegin(0, false));
    states, steps := Prolong(states, steps, RecentStart(0, recentKey));
    var recent := Some([Reading(server, false, true, false, 1, {})]);
    MergedAt(recent.value, 1, [], 0.0);
    states, steps := Prolong(states, steps, RecentPublish(0, recentKey, 30.0, recent));
    assert states[3].recent.entry.value.items == ListOf(server, recentKey).items;
  }

  function ListOf(server: string, recentKey: string): Snapshot {
    Snapshot(0, recentKey, 30.0, RETENTION, [Item(server, 1, true, 0.0, false, {})], false, 0.0, 0)
  }

  function BoardOf(server: string, key: string): Snapshot {
    Snapshot(0, key, 30.0, RETENTION, [Item(server, 2, true, 0.0, false, {0})], false, 0.0, 0)
  }

  lemma BoardPublished(server: string, key: string, readings: Option<seq<Reading>>)
    requires readings == Some([Reading(server, false, true, false, 2, {0})])
    ensures Published(Cache(None, 0, 0), key, 0, false, 30.0, 0.0, readings).0 == Cache(Some(BoardOf(server, key)), 0, 1)
  {
    MergedAt(readings.value, 1, [], 0.0);
    assert MergedUpTo(readings.value, 1, [], 0.0) == [Item(server, 2, true, 0.0, false, {0})];
  }

  /** And a dashboard that reuses it. */
  lemma FirstBoard(server: string, recentKey: string, key: string) returns (states: seq<World>, steps: seq<Step>)
    ensures Run(states, steps) && |steps| == 7
    ensures var w := states[7];
            && w.recent.generation == 0 && w.now == 0.0 && w.dashLoads == map[0 := Ended]
            && w.dash == Cache(Some(BoardOf(server, key)), 0, 1)
  {
    states, steps := FirstList(server, recentKey);
    states, steps := Prolong(states, steps, DashBegin(0, false));
    states, steps := Prolong(states, steps, DashStart(0, key));
    assert Taken(states[5], server, recentKey) == {0} by {
      assert ListOf(server, recentKey).items[0].server == server;
    }
    states, steps := Prolong(states, steps, Reuse(0, server, recentKey));
    assert states[6].dashLoads == map[0 := Loading(0, false, map[server := {0}])];
    var boards := Some([Reading(server, false, true, false, 2, {0})]);
    BoardPublished(server, key, boards);
    states, steps := Prolong(states, steps, DashPublish(0, key, 30.0, boards));
  }

  /**
   * The exception is real: after a clear that keeps stale content, a refresh
   * that fails altogether stores the kept board once more, with the recent list
   * from before the clear.
   */
  lemma KeptListStoredAgain(server: string, recentKey: string, key: string) returns (states: seq<World>, steps: seq<Step>)
    ensures Run(states, steps) && |steps| == 12
    ensures steps[7] == InvalidateRecent(true) && steps[8] == InvalidateDash(true) && steps[9].DashBegin?
    ensures steps[11].DashPublish? && Stores(states[11], steps[11]) && Uses(states[12], 0, states[7].recent.generation + 1)
  {
    states, steps := FirstBoard(server, recentKey, key);
    states, steps := Prolong(states, steps, InvalidateRecent(true));
    states, steps := Prolong(states, steps, InvalidateDash(true));
    states, steps := Prolong(states, steps, DashBegin(1, false));
    states, steps := Prolong(states, steps, DashStart(1, key));
    states, steps := Prolong(states, steps, DashPublish(1, key, 30.0, None));
  }
}
