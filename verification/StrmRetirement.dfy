/**
 * Retirement of STRM sources in app/database.py: sources that leave the
 * configuration are queued for clean-up, in the transaction that also records
 * what is configured. The configuration file is published inside that
 * transaction, so a crash can leave it ahead of the database; the start-up
 * reconciliation repairs this from the recorded snapshot.
 */
module StrmRetirement {
  import opened Basics
  import opened Text

  /** A configured source: id and name. */
  type Sources = seq<(string, string)>

  const DEFAULT_NAME := "\U{6E90}\U{76EE}\U{5F55}"

  function Decimal(n: nat): (s: string)
    ensures s != [] && !IsSpace(s[|s| - 1])
  {
    (if n < 10 then "" else Decimal(n / 10)) + [('0' as int + n % 10) as char]
  }

  predicate HasId(sources: Sources, id: string) {
    exists i :: 0 <= i < |sources| && sources[i].0 == id
  }

  /** The stripped id and name of one raw entry; a nameless one is named after its place. */
  function Cleaned(raw: (string, string), index: nat): (string, string) {
    (Strip(raw.0), if Strip(raw.1) != "" then Strip(raw.1) else DEFAULT_NAME + Decimal(index + 1))
  }

  predicate IsRoot(id: string) {
    id == "" || id == "0"
  }

  function NormalizedUpTo(sources: Sources, n: nat): Sources
    requires n <= |sources|
  {
    if n == 0 then []
    else
      var before, entry := NormalizedUpTo(sources, n - 1), Cleaned(sources[n - 1], n - 1);
      if IsRoot(entry.0) || HasId(before, entry.0) then before else before + [entry]
  }

  /** Blank and root ids are dropped, the first entry of an id wins. */
  function Normalized(sources: Sources): Sources {
    NormalizedUpTo(sources, |sources|)
  }

  method Normalize(sources: Sources) returns (result: Sources)
    ensures result == Normalized(sources)
  {
    result := [];
    for i := 0 to |sources|
      invariant result == NormalizedUpTo(sources, i)
    {
      var entry := Cleaned(sources[i], i);
      if !IsRoot(entry.0) {
        var known := false;
        for k := 0 to |result|
          invariant known <==> exists j :: 0 <= j < k && result[j].0 == entry.0
        {
          known := known || result[k].0 == entry.0;
        }
        if !known {
          result := result + [entry];
        }
      }
    }
  }

  predicate Distinct(sources: Sources) {
    forall i, j :: 0 <= i < j < |sources| ==> sources[i].0 != sources[j].0
  }

  predicate IsClean(sources: Sources) {
    && Distinct(sources)
    && forall i :: 0 <= i < |sources| ==> Strip(sources[i].0) == sources[i].0 && !IsRoot(sources[i].0) && sources[i].1 != "" && Strip(sources[i].1) == sources[i].1
  }

  lemma DefaultNameStripped(index: nat)
    ensures Strip(DEFAULT_NAME + Decimal(index + 1)) == DEFAULT_NAME + Decimal(index + 1) != ""
  {
    var name := DEFAULT_NAME + Decimal(index + 1);
    assert name[0] == '\U{6E90}' && name[|name| - 1] == Decimal(index + 1)[|Decimal(index + 1)| - 1];
    StripSolid(name);
  }

  lemma CleanedClean(raw: (string, string), index: nat)
    ensures var entry := Cleaned(raw, index); Strip(entry.0) == entry.0 && entry.1 != "" && Strip(entry.1) == entry.1
  {
    StripTrimmed(raw.0);
    StripTrimmed(raw.1);
    DefaultNameStripped(index);
  }

  lemma {:induction false} NormalizedClean(sources: Sources, n: nat)
    requires n <= |sources|
    ensures IsClean(NormalizedUpTo(sources, n))
  {
    if n > 0 {
      NormalizedClean(sources, n - 1);
      CleanedClean(sources[n - 1], n - 1);
    }
  }

  lemma {:induction false} CleanIsNormal(sources: Sources, n: nat)
    requires IsClean(sources) && n <= |sources|
    ensures NormalizedUpTo(sources, n) == sources[..n]
  {
    if n > 0 {
      CleanIsNormal(sources, n - 1);
      CleanEntry(sources, n - 1);
      assert sources[..n] == sources[..n - 1] + [sources[n - 1]];
    }
  }

  lemma CleanEntry(sources: Sources, n: nat)
    requires IsClean(sources) && n < |sources|
    ensures Cleaned(sources[n], n) == sources[n] && !IsRoot(sources[n].0) && !HasId(sources[..n], sources[n].0)
  {
    assert forall i :: 0 <= i < n ==> sources[..n][i] == sources[i];
  }

  /** A snapshot reads back as it was written: normalizing again changes nothing. */
  lemma NormalizeTwice(sources: Sources)
    ensures Normalized(Normalized(sources)) == Normalized(sources)
  {
    NormalizedClean(sources, |sources|);
    var clean := Normalized(sources);
    CleanIsNormal(clean, |clean|);
    assert clean[..|clean|] == clean;
  }

  // ----- the retirement queue -----

  datatype Retired = Retired(name: string, root: string, queuedAt: int, updatedAt: int, attempts: nat, error: string)

  type Queue = map<string, Retired>

  /** `None` for a snapshot that is missing or unreadable. */
  datatype Db = Db(queue: Queue, snapshot: Option<(Sources, string)>)

  function Ids(sources: Sources): set<string> {
    set i | 0 <= i < |sources| :: sources[i].0
  }

  function Upserted(queue: Queue, id: string, name: string, root: string, time: int): Queue {
    if id in queue then queue[id := queue[id].(name := name, root := root, updatedAt := time, error := "")]
    else queue[id := Retired(name, root, time, time, 0, "")]
  }

  /** Queues the first `n` of the retired sources. */
  function Queued(queue: Queue, retired: seq<(string, string, string)>, n: nat, time: int): Queue
    requires n <= |retired|
  {
    if n == 0 then queue
    else var r := retired[n - 1]; Upserted(Queued(queue, retired, n - 1, time), r.0, r.1, r.2, time)
  }

  function Reconciled(queue: Queue, active: set<string>, retired: seq<(string, string, string)>, time: int): Queue {
    Queued(queue - active, retired, |retired|, time)
  }

  /** The sources of the old snapshot that are no longer configured, under the old root. */
  function Missing(previous: Sources, root: string, current: set<string>): seq<(string, string, string)> {
    if previous == [] then []
    else (if previous[0].0 in current then [] else [(previous[0].0, previous[0].1, root)]) + Missing(previous[1..], root, current)
  }

  function Startup(db: Db, configured: Sources, root: string, time: int): Db {
    var current := Normalized(configured);
    var retired := match db.snapshot
      case None => []
      case Some((previous, oldRoot)) => Missing(previous, oldRoot, Ids(current));
    Db(Reconciled(db.queue, Ids(current), retired, time), Some((current, root)))
  }

  /** What the saving transaction commits, for cleaned retired sources. */
  function Saved(db: Db, active: set<string>, retired: seq<(string, string, string)>, configured: Sources, root: string, time: int): Db {
    Db(Reconciled(db.queue, active, retired, time), Some((Normalized(configured), root)))
  }

  class RetirementStore {
    var queue: Queue
    var snapshot: Option<(Sources, string)>

    ghost function View(): Db
      reads this
    {
      Db(queue, snapshot)
    }

    constructor ()
      ensures View() == Db(map[], None)
    {
      queue, snapshot := map[], None;
    }

    method ApplyReconciliation(active: set<string>, retired: seq<(string, string, string)>, time: int)
      modifies this
      ensures queue == Reconciled(old(queue), active, retired, time) && snapshot == old(snapshot)
    {
      queue := queue - active;
      ghost var start := queue;
      for i := 0 to |retired|
        invariant queue == Queued(start, retired, i, time) && snapshot == old(snapshot)
      {
        var (id, name, root) := retired[i];
        if id in queue {
          queue := queue[id := queue[id].(name := name, root := root, updatedAt := time, error := "")];
        } else {
          queue := queue[id := Retired(name, root, time, time, 0, "")];
        }
      }
    }

    method MissingSources(previous: Sources, root: string, current: set<string>) returns (retired: seq<(string, string, string)>)
      ensures retired == Missing(previous, root, current)
    {
      retired := [];
      var i := |previous|;
      while i > 0
        invariant 0 <= i <= |previous| && retired == Missing(previous[i..], root, current)
      {
        i := i - 1;
        assert previous[i..][1..] == previous[i + 1..];
        if previous[i].0 !in current {
          retired := [(previous[i].0, previous[i].1, root)] + retired;
        }
      }
      assert previous[0..] == previous;
    }

    /** `reconcile_configured_strm_sources`, at start-up. */
    method ReconcileConfigured(configured: Sources, root: string, time: int) returns (retired: seq<(string, string, string)>)
      modifies this
      ensures View() == Startup(old(View()), configured, root, time)
      ensures var current := Ids(Normalized(configured));
              retired == if old(snapshot).Some? then Missing(old(snapshot).value.0, old(snapshot).value.1, current) else []
    {
      var current := Normalize(configured);
      retired := [];
      if snapshot.Some? {
        retired := MissingSources(snapshot.value.0, snapshot.value.1, Ids(current));
      }
      ApplyReconciliation(Ids(current), retired, time);
      snapshot := Some((current, root));
    }

    /**
     * `reconcile_strm_retired_sources_transaction`: the configuration is published
     * inside it. When publishing or the commit fails, nothing of it remains.
     */
    method SaveSources(active: set<string>, retired: seq<(string, string, string)>, configured: Sources, root: string, time: int, commits: bool)
      requires forall i :: 0 <= i < |retired| ==> retired[i].0 !in active
      modifies this
      ensures View() == if commits then Saved(old(View()), active, retired, configured, root, time) else old(View())
    {
      var queueBefore := queue;
      ApplyReconciliation(active, retired, time);
      if commits {
        var current := Normalize(configured);
        snapshot := Some((current, root));
      } else {
        queue := queueBefore;
      }
    }
  }

  // ----- lemmas about the queue -----

  lemma {:induction false} MissingAre(previous: Sources, root: string, current: set<string>)
    ensures forall i :: 0 <= i < |Missing(previous, root, current)| ==>
                          Missing(previous, root, current)[i].0 in Ids(previous) - current
    ensures forall id :: id in Ids(previous) - current ==>
                           exists i :: 0 <= i < |Missing(previous, root, current)| && Missing(previous, root, current)[i].0 == id
  {
    if previous != [] {
      MissingAre(previous[1..], root, current);
      var rest := Missing(previous[1..], root, current);
      var all := Missing(previous, root, current);
      var shift := |all| - |rest|;
      assert forall i :: 0 <= i < |rest| ==> all[i + shift] == rest[i];
      assert forall i :: 0 <= i < |previous[1..]| ==> previous[1..][i] == previous[i + 1];
      forall id | id in Ids(previous) - current ensures exists i :: 0 <= i < |all| && all[i].0 == id {
        if id == previous[0].0 {
          assert all[0].0 == id;
        } else {
          assert id in Ids(previous[1..]) by {
            var k :| 0 <= k < |previous| && previous[k].0 == id;
            assert previous[1..][k - 1].0 == id;
          }
          assert id in Ids(previous[1..]) - current;
          var i :| 0 <= i < |rest| && rest[i].0 == id;
          assert all[i + shift].0 == id;
        }
      }
    }
  }

  lemma {:induction false} QueuedKeys(queue: Queue, retired: seq<(string, string, string)>, n: nat, time: int)
    requires n <= |retired|
    ensures forall id :: id in Queued(queue, retired, n, time) <==> id in queue || exists i :: 0 <= i < n && retired[i].0 == id
  {
    if n > 0 {
      QueuedKeys(queue, retired, n - 1, time);
      var next := Queued(queue, retired, n, time);
      assert forall id :: id in next <==> id in Queued(queue, retired, n - 1, time) || id == retired[n - 1].0;
    }
  }

  /** What the start-up reconciliation queues: all that left the snapshot, and what was queued before and is not configured. */
  lemma StartupQueue(db: Db, configured: Sources, root: string, time: int)
    ensures var current := Ids(Normalized(configured));
            var before := if db.snapshot.Some? then Ids(db.snapshot.value.0) else {};
            Startup(db, configured, root, time).queue.Keys == (db.queue.Keys + before) - current
  {
    var current := Ids(Normalized(configured));
    if db.snapshot.Some? {
      var (previous, oldRoot) := db.snapshot.value;
      var retired := Missing(previous, oldRoot, current);
      MissingAre(previous, oldRoot, current);
      QueuedKeys(db.queue - current, retired, |retired|, time);
      forall id ensures id in Startup(db, configured, root, time).queue <==> id in (db.queue.Keys + Ids(previous)) - current {
        if id in Ids(previous) - current {
          assert exists i :: 0 <= i < |retired| && retired[i].0 == id;
        }
      }
    } else {
      QueuedKeys(db.queue - current, [], 0, time);
    }
  }

  /** No configured source is ever queued as retired. */
  lemma NoActiveQueued(db: Db, configured: Sources, root: string, time: int)
    ensures Startup(db, configured, root, time).queue.Keys !! Ids(Normalized(configured))
  {
    StartupQueue(db, configured, root, time);
  }

  /** The same of a committed save, because sources that are still configured are never passed as retired. */
  lemma NoActiveSaved(db: Db, active: set<string>, retired: seq<(string, string, string)>, configured: Sources, root: string, time: int)
    requires forall i :: 0 <= i < |retired| ==> retired[i].0 !in active
    ensures Saved(db, active, retired, configured, root, time).queue.Keys !! active
  {
    QueuedKeys(db.queue - active, retired, |retired|, time);
  }

  lemma {:induction false} MissingRoot(previous: Sources, root: string, current: set<string>)
    ensures forall i :: 0 <= i < |Missing(previous, root, current)| ==> Missing(previous, root, current)[i].2 == root
  {
    if previous != [] {
      MissingRoot(previous[1..], root, current);
      var rest := Missing(previous[1..], root, current);
      assert Missing(previous, root, current)[|Missing(previous, root, current)| - |rest|..] == rest;
    }
  }

  lemma {:induction false} QueuedRoot(queue: Queue, retired: seq<(string, string, string)>, n: nat, time: int, root: string)
    requires n <= |retired| && forall i :: 0 <= i < |retired| ==> retired[i].2 == root
    ensures forall i :: 0 <= i < n ==> retired[i].0 in Queued(queue, retired, n, time) && Queued(queue, retired, n, time)[retired[i].0].root == root
  {
    if n > 0 {
      QueuedRoot(queue, retired, n - 1, time, root);
    }
  }

  /**
   * Crash convergence: when the configuration was published but the commit was
   * lost, start-up reaches the very state the commit would have reached, exactly
   * if no source was dropped or the snapshot has the root that the settings had
   * (it has not when the root alone was saved since).
   */
  lemma CrashConvergentIff(db: Db, configured: Sources, root: string, time: int, previous: Sources, snapshotRoot: string, settingsRoot: string)
    requires db.snapshot == Some((previous, snapshotRoot))
    ensures var active := Ids(Normalized(configured));
            var dropped := Missing(previous, settingsRoot, active);
            Startup(db, configured, root, time) == Saved(db, active, dropped, configured, root, time) <==>
            Ids(previous) <= active || snapshotRoot == settingsRoot
  {
    var active := Ids(Normalized(configured));
    var found, dropped := Missing(previous, snapshotRoot, active), Missing(previous, settingsRoot, active);
    MissingAre(previous, snapshotRoot, active);
    MissingAre(previous, settingsRoot, active);
    if Ids(previous) <= active {
      NothingMissing(previous, snapshotRoot, active);
      NothingMissing(previous, settingsRoot, active);
    } else {
      var id :| id in Ids(previous) && id !in active;
      assert id in Ids(previous) - active;
      var i :| 0 <= i < |found| && found[i].0 == id;
      var k :| 0 <= k < |dropped| && dropped[k].0 == id;
      MissingRoot(previous, snapshotRoot, active);
      MissingRoot(previous, settingsRoot, active);
      QueuedRoot(db.queue - active, found, |found|, time, snapshotRoot);
      QueuedRoot(db.queue - active, dropped, |dropped|, time, settingsRoot);
      assert Startup(db, configured, root, time).queue[found[i].0].root == snapshotRoot;
      assert Saved(db, active, dropped, configured, root, time).queue[dropped[k].0].root == settingsRoot;
    }
  }

  /** A second reconciliation finds nothing to do. */
  lemma StartupTwice(db: Db, configured: Sources, root: string, time: int, later: int)
    ensures var once := Startup(db, configured, root, time); Startup(once, configured, root, later) == once
  {
    var current := Ids(Normalized(configured));
    var once := Startup(db, configured, root, time);
    NoActiveQueued(db, configured, root, time);
    NothingMissing(Normalized(configured), root, current);
    assert once.queue - current == once.queue;
  }

  lemma {:induction false} NothingMissing(sources: Sources, root: string, current: set<string>)
    requires Ids(sources) <= current
    ensures Missing(sources, root, current) == []
  {
    if sources != [] {
      assert sources[0].0 in Ids(sources);
      assert forall i :: 0 <= i < |sources[1..]| ==> sources[1..][i] == sources[i + 1];
      NothingMissing(sources[1..], root, current);
    }
  }

  // ----- runs with crashes -----

  /** `known` is every id a snapshot ever held, `cleaned` those whose clean-up is done. */
  datatype World = World(db: Db, configured: Sources, root: string, known: set<string>, cleaned: set<string>)

  datatype Step =
    | Save(configured: Sources, root: string)
    | SaveCrashes(configured: Sources, root: string)
    | SaveRoot(root: string)
    | Restart
    | CleanUp(id: string)
    | Attempt(id: string, error: string)

  predicate InSync(w: World) {
    w.db.snapshot.Some? && w.db.snapshot.value.0 == Normalized(w.configured)
  }

  /** What the settings handler passes: the sources it had that the new configuration lacks, under the root it had. */
  function Dropped(w: World, configured: Sources): seq<(string, string, string)> {
    Missing(Normalized(w.configured), w.root, Ids(Normalized(configured)))
  }

  function Apply(w: World, step: Step, time: int): World {
    match step
    case Save(configured, root) =>
      var active := Ids(Normalized(configured));
      World(Saved(w.db, active, Dropped(w, configured), configured, root, time), configured, root, w.known + active, w.cleaned - active)
    case SaveCrashes(configured, root) => w.(configured := configured, root := root)
    case SaveRoot(root) => w.(root := root)
    case Restart =>
      var active := Ids(Normalized(w.configured));
      w.(db := Startup(w.db, w.configured, w.root, time), known := w.known + active, cleaned := w.cleaned - active)
    case CleanUp(id) =>
      if id in w.db.queue then w.(db := w.db.(queue := w.db.queue - {id}), cleaned := w.cleaned + {id}) else w
    case Attempt(id, error) =>
      if id in w.db.queue then
        var r := w.db.queue[id];
        w.(db := w.db.(queue := w.db.queue[id := r.(attempts := r.attempts + 1, error := error, updatedAt := time)]))
      else w
  }

  function SnapshotIds(db: Db): set<string> {
    if db.snapshot.Some? then Ids(db.snapshot.value.0) else {}
  }

  /** Every source ever recorded is recorded still, queued for clean-up, or cleaned, and only one of these. */
  ghost predicate Inv(w: World) {
    && w.known <= SnapshotIds(w.db) + w.db.queue.Keys + w.cleaned && SnapshotIds(w.db) <= w.known
    && SnapshotIds(w.db) !! w.db.queue.Keys && SnapshotIds(w.db) !! w.cleaned
  }

  /** A save must find each recorded source in the settings it replaces or in those it writes. */
  predicate Allowed(w: World, step: Step) {
    step.Save? ==> SnapshotIds(w.db) <= Ids(Normalized(w.configured)) + Ids(Normalized(step.configured))
  }

  /** The settings are those the snapshot was written for, as after a start-up: then every save is allowed. */
  lemma InSyncAllows(w: World, step: Step)
    requires InSync(w)
    ensures Allowed(w, step)
  {
  }

  /** A save forgets no source if and only if it is allowed. */
  lemma SaveKeepsIff(w: World, configured: Sources, root: string, time: int)
    requires Inv(w)
    ensures Inv(Apply(w, Save(configured, root), time)) <==> Allowed(w, Save(configured, root))
  {
    var active := Ids(Normalized(configured));
    var retired := Dropped(w, configured);
    var w' := Apply(w, Save(configured, root), time);
    MissingAre(Normalized(w.configured), w.root, active);
    QueuedKeys(w.db.queue - active, retired, |retired|, time);
    assert SnapshotIds(w'.db) == active;
    assert w'.db.queue.Keys == w.db.queue.Keys - active + (Ids(Normalized(w.configured)) - active) by {
      forall id | id in Ids(Normalized(w.configured)) - active ensures id in w'.db.queue {
        assert exists i :: 0 <= i < |retired| && retired[i].0 == id;
      }
    }
  }

  lemma InvRestart(w: World, time: int)
    requires Inv(w)
    ensures Inv(Apply(w, Restart, time)) && InSync(Apply(w, Restart, time))
  {
    StartupQueue(w.db, w.configured, w.root, time);
    assert SnapshotIds(Apply(w, Restart, time).db) == Ids(Normalized(w.configured));
  }

  lemma InvStep(w: World, step: Step, time: int)
    requires Inv(w)
    ensures Inv(Apply(w, step, time)) <==> Allowed(w, step)
  {
    match step
    case Save(configured, root) => SaveKeepsIff(w, configured, root, time);
    case SaveCrashes(configured, root) =>
    case SaveRoot(root) =>
    case Restart => InvRestart(w, time);
    case CleanUp(id) =>
    case Attempt(id, error) =>
      if id in w.db.queue {
        assert Apply(w, step, time).db.queue.Keys == w.db.queue.Keys;
      }
  }

  ghost predicate Follows(w: World, step: Step, w': World) {
    exists time :: w' == Apply(w, step, time)
  }

  ghost predicate Run(states: seq<World>, steps: seq<Step>) {
    && |states| == |steps| + 1 && states[0] == World(Db(map[], None), states[0].configured, states[0].root, {}, {})
    && forall i :: 0 <= i < |steps| ==> Follows(states[i], steps[i], states[i + 1])
  }

  ghost predicate AllAllowed(states: seq<World>, steps: seq<Step>, n: nat)
    requires n <= |steps| && n < |states|
  {
    forall k :: 0 <= k < n ==> Allowed(states[k], steps[k])
  }

  /**
   * However saves, crashes, restarts and clean-ups interleave, no source is
   * forgotten between configuration and clean-up if and only if every save was
   * allowed.
   */
  lemma {:induction false} NoSourceForgotten(states: seq<World>, steps: seq<Step>, n: nat)
    requires Run(states, steps) && n <= |steps|
    ensures (forall k :: 0 <= k <= n ==> Inv(states[k])) <==> AllAllowed(states, steps, n)
  {
    if n > 0 {
      NoSourceForgotten(states, steps, n - 1);
      assert Follows(states[n - 1], steps[n - 1], states[n]);
      var time :| states[n] == Apply(states[n - 1], steps[n - 1], time);
      if Inv(states[n - 1]) {
        InvStep(states[n - 1], steps[n - 1], time);
      }
    }
  }

  /** A source that was recorded and is neither configured nor cleaned up is queued after the next successful start-up. */
  lemma QueuedAfterRestart(w: World, id: string, time: int)
    requires Inv(w) && id in w.known && id !in w.cleaned && id !in Ids(Normalized(w.configured))
    ensures id in Apply(w, Restart, time).db.queue
  {
    StartupQueue(w.db, w.configured, w.root, time);
  }

  /**
   * A save that is not allowed: the configuration that dropped a source was
   * published, its commit was lost, and no start-up came before the next save.
   */
  lemma UnrepairedCrashForgets(time: int) returns (states: seq<World>, steps: seq<Step>)
    ensures Run(states, steps) && steps == [Save([("1", "one")], ""), SaveCrashes([], ""), Save([], "")]
    ensures var w := states[3]; "1" in w.known && "1" !in SnapshotIds(w.db) && "1" !in w.db.queue && "1" !in w.cleaned
  {
    var one := [("1", "one")];
    OneSource();
    var start := World(Db(map[], None), [], "", {}, {});
    steps := [Save(one, ""), SaveCrashes([], ""), Save([], "")];
    var w1 := Apply(start, steps[0], time);
    assert w1 == World(Db(map[], Some((one, ""))), one, "", {"1"}, {});
    var w2 := Apply(w1, steps[1], time);
    var w3 := Apply(w2, steps[2], time);
    assert w3.db.queue == map[];
    states := [start, w1, w2, w3];
    forall i | 0 <= i < 3 ensures Follows(states[i], steps[i], states[i + 1]) {
      assert states[i + 1] == Apply(states[i], steps[i], time);
    }
  }

  /**
   * Start-up that does not reach the state of the lost commit: the root alone is
   * saved, then a save that drops the source crashes. The source is queued under
   * the root of the snapshot instead of the one it was last used with.
   */
  lemma RootAloneDiverges(time: int) returns (states: seq<World>, steps: seq<Step>)
    ensures Run(states, steps) && steps == [Save([("1", "one")], "a"), SaveRoot("b"), SaveCrashes([], "b"), Restart]
    ensures "1" in states[4].db.queue && states[4].db.queue["1"].root == "a"
    ensures var committed := Apply(states[2], Save([], "b"), time); "1" in committed.db.queue && committed.db.queue["1"].root == "b"
  {
    var one := [("1", "one")];
    OneSource();
    OneMissing();
    var start := World(Db(map[], None), [], "", {}, {});
    steps := [Save(one, "a"), SaveRoot("b"), SaveCrashes([], "b"), Restart];
    var w1 := Apply(start, steps[0], time);
    assert w1.db.snapshot == Some((one, "a")) && w1.configured == one;
    var w2, w3 := Apply(w1, steps[1], time), Apply(Apply(w1, steps[1], time), steps[2], time);
    var w4 := Apply(w3, steps[3], time);
    assert w3.db.snapshot == Some((one, "a")) && w3.configured == [];
    states := [start, w1, w2, w3, w4];
    forall i | 0 <= i < 4 ensures Follows(states[i], steps[i], states[i + 1]) {
      assert states[i + 1] == Apply(states[i], steps[i], time);
    }
    QueuedRoot(w3.db.queue - {}, [("1", "one", "a")], 1, time, "a");
    QueuedRoot(w2.db.queue - {}, [("1", "one", "b")], 1, time, "b");
  }

  lemma OneMissing()
    ensures Missing([("1", "one")], "a", {}) == [("1", "one", "a")] && Missing([("1", "one")], "b", {}) == [("1", "one", "b")]
    ensures Missing([], "", {"1"}) == []
  {
    assert [("1", "one")][1..] == [];
  }

  lemma OneSource()
    ensures Normalized([("1", "one")]) == [("1", "one")] && Ids([("1", "one")]) == {"1"}
    ensures Normalized([]) == [] && Ids([]) == {}
  {
    var one := [("1", "one")];
    assert one[0].0 == "1";
  }
}
