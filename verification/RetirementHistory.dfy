/**
 * What the entries of the retirement queue owe to the history of the settings:
 * who is queued, under which name and root, and how often its clean-up was
 * tried; and what a normalized list of sources is.
 */
module RetirementHistory {
  import opened Basics
  import opened Text
  import opened StrmRetirement

  // ----- normalized sources -----

  /** The number that decimal digits write. */
  function Number(s: string): int {
    if s == [] then 0 else 10 * Number(s[..|s| - 1]) + (s[|s| - 1] as int - '0' as int)
  }

  lemma {:induction false} DecimalWrites(n: nat)
    ensures Number(Decimal(n)) == n && (forall c :: c in Decimal(n) ==> '0' <= c <= '9')
    ensures n > 0 ==> Decimal(n)[0] != '0'
  {
    if n >= 10 {
      DecimalWrites(n / 10);
    }
    assert Decimal(n)[..|Decimal(n)| - 1] == if n < 10 then "" else Decimal(n / 10);
  }

  /** The entry has a usable id that no earlier entry has. */
  predicate FirstAt(sources: Sources, i: nat)
    requires i < |sources|
  {
    var id := Strip(sources[i].0);
    id != "" && id != "0" && forall j :: 0 <= j < i ==> Strip(sources[j].0) != id
  }

  /** What becomes of it: the stripped id and name, or the default name with its place counted from one. */
  predicate Becomes(sources: Sources, i: nat, entry: (string, string))
    requires i < |sources|
  {
    && entry.0 == Strip(sources[i].0)
    && if Strip(sources[i].1) != "" then entry.1 == Strip(sources[i].1)
       else |entry.1| > 3 && entry.1[..3] == ['\U{6E90}', '\U{76EE}', '\U{5F55}'] && Number(entry.1[3..]) == i + 1
  }

  /** Entry `k` of the result comes from entry `places[k]`. */
  ghost predicate Selects(sources: Sources, result: Sources, places: seq<nat>) {
    && |places| == |result|
    && (forall k :: 0 <= k < |places| ==> places[k] < |sources| && FirstAt(sources, places[k]) && Becomes(sources, places[k], result[k]))
    && (forall k, m :: 0 <= k < m < |places| ==> places[k] < places[m])
    && (forall i :: 0 <= i < |sources| && FirstAt(sources, i) ==> i in places)
  }

  /** Normalizing keeps, in order, exactly the first entry of each usable id. */
  lemma NormalizedIs(sources: Sources) returns (places: seq<nat>)
    ensures Selects(sources, Normalized(sources), places)
  {
    places := NormalizedPlaces(sources, |sources|);
    forall k | 0 <= k < |places|
      ensures places[k] < |sources| && FirstAt(sources, places[k]) && Becomes(sources, places[k], Normalized(sources)[k])
    {
      assert ComesFrom(sources, |sources|, Normalized(sources)[k], places[k]);
    }
  }

  lemma CleanedIs(sources: Sources, i: nat)
    requires i < |sources|
    ensures Becomes(sources, i, Cleaned(sources[i], i))
  {
    DecimalWrites(i + 1);
    assert (DEFAULT_NAME + Decimal(i + 1))[3..] == Decimal(i + 1);
    assert DEFAULT_NAME == ['\U{6E90}', '\U{76EE}', '\U{5F55}'];
  }

  predicate ComesFrom(sources: Sources, n: nat, entry: (string, string), place: nat)
    requires n <= |sources|
  {
    place < n && FirstAt(sources, place) && Becomes(sources, place, entry)
  }

  ghost predicate SelectsUpTo(sources: Sources, n: nat, result: Sources, places: seq<nat>)
    requires n <= |sources|
  {
    && |places| == |result|
    && (forall k :: 0 <= k < |places| ==> ComesFrom(sources, n, result[k], places[k]))
    && (forall k, m :: 0 <= k < m < |places| ==> places[k] < places[m])
    && (forall i :: 0 <= i < n && FirstAt(sources, i) ==> i in places)
  }

  lemma {:induction false} NormalizedPlaces(sources: Sources, n: nat) returns (places: seq<nat>)
    requires n <= |sources|
    ensures SelectsUpTo(sources, n, NormalizedUpTo(sources, n), places)
  {
    if n == 0 {
      places := [];
    } else {
      var before := NormalizedPlaces(sources, n - 1);
      var known := NormalizedUpTo(sources, n - 1);
      CleanedIs(sources, n - 1);
      KnownIff(sources, n, known, before);
      if FirstAt(sources, n - 1) {
        places := before + [n - 1];
        PlaceAdded(sources, n, known, before, Cleaned(sources[n - 1], n - 1));
      } else {
        places := before;
        PlaceSkipped(sources, n, known, before);
      }
    }
  }

  lemma PlaceAdded(sources: Sources, n: nat, known: Sources, places: seq<nat>, entry: (string, string))
    requires 0 < n <= |sources| && SelectsUpTo(sources, n - 1, known, places) && ComesFrom(sources, n, entry, n - 1)
    ensures SelectsUpTo(sources, n, known + [entry], places + [n - 1])
  {
    forall k | 0 <= k < |places| ensures places[k] < n - 1 {
      assert ComesFrom(sources, n - 1, known[k], places[k]);
    }
    forall k | 0 <= k <= |places| ensures ComesFrom(sources, n, (known + [entry])[k], (places + [n - 1])[k]) {
      assert k < |places| ==> ComesFrom(sources, n - 1, known[k], places[k]);
    }
  }

  lemma PlaceSkipped(sources: Sources, n: nat, known: Sources, places: seq<nat>)
    requires 0 < n <= |sources| && SelectsUpTo(sources, n - 1, known, places) && !FirstAt(sources, n - 1)
    ensures SelectsUpTo(sources, n, known, places)
  {
    forall k | 0 <= k < |places| ensures ComesFrom(sources, n, known[k], places[k]) {
      assert ComesFrom(sources, n - 1, known[k], places[k]);
    }
  }

  /** An id was seen before exactly if it is in the list so far, unless it is no usable id. */
  lemma KnownIff(sources: Sources, n: nat, known: Sources, places: seq<nat>)
    requires 0 < n <= |sources| && SelectsUpTo(sources, n - 1, known, places)
    ensures var id := Strip(sources[n - 1].0);
            FirstAt(sources, n - 1) <==> !IsRoot(id) && !HasId(known, id)
  {
    var id := Strip(sources[n - 1].0);
    if !IsRoot(id) && !FirstAt(sources, n - 1) {
      var i := FirstOf(sources, n - 1, id);
      var k :| 0 <= k < |places| && places[k] == i;
      assert ComesFrom(sources, n - 1, known[k], i);
    } else if HasId(known, id) {
      var k :| 0 <= k < |known| && known[k].0 == id;
      assert ComesFrom(sources, n - 1, known[k], places[k]);
    }
  }

  lemma {:induction false} FirstOf(sources: Sources, n: nat, id: string) returns (i: nat)
    requires n <= |sources| && id != "" && id != "0" && exists j :: 0 <= j < n && Strip(sources[j].0) == id
    ensures i < n && Strip(sources[i].0) == id && FirstAt(sources, i)
  {
    var j :| 0 <= j < n && Strip(sources[j].0) == id;
    if FirstAt(sources, j) {
      i := j;
    } else {
      i := FirstOf(sources, j, id);
    }
  }

  // ----- the queue -----

  /** The sources a step drops, and the root they are queued under. */
  function Losing(w: World, step: Step): (Sources, string) {
    match step
    case Save(_, _) => (Normalized(w.configured), w.root)
    case Restart => if w.db.snapshot.Some? then w.db.snapshot.value else ([], "")
    case _ => ([], "")
  }

  /** The ids in force after a step that commits. */
  function Active(w: World, step: Step): set<string> {
    match step
    case Save(configured, _) => Ids(Normalized(configured))
    case Restart => Ids(Normalized(w.configured))
    case _ => {}
  }

  /** The step queues `id`. */
  predicate Queues(w: World, step: Step, id: string) {
    HasId(Losing(w, step).0, id) && id !in Active(w, step)
  }

  /** A queued source has the name and root it was last configured with, and starts afresh but for its attempts. */
  predicate QueuedAs(w: World, step: Step, time: int, id: string, r: Retired) {
    var (sources, root) := Losing(w, step);
    && (id, r.name) in sources && r.root == root && r.updatedAt == time && r.error == ""
    && r.attempts == (if id in w.db.queue then w.db.queue[id].attempts else 0)
    && r.queuedAt == (if id in w.db.queue then w.db.queue[id].queuedAt else time)
  }

  /** What a step does to one entry of the queue. */
  predicate EntryAfter(w: World, step: Step, time: int, id: string, queue: Queue) {
    if id in Active(w, step) || step == CleanUp(id) then id !in queue
    else if Queues(w, step, id) then id in queue && QueuedAs(w, step, time, id, queue[id])
    else if id !in w.db.queue then id !in queue
    else
      && id in queue
      && var (r, r') := (w.db.queue[id], queue[id]);
         if step.Attempt? && step.id == id then
           && r'.attempts == r.attempts + 1 && r'.error == step.error && r'.updatedAt == time
           && r'.name == r.name && r'.root == r.root && r'.queuedAt == r.queuedAt
         else r' == r
  }

  predicate SnapshotDistinct(db: Db) {
    db.snapshot.Some? ==> Distinct(db.snapshot.value.0)
  }

  lemma EntryStep(w: World, step: Step, time: int, id: string)
    requires SnapshotDistinct(w.db)
    ensures EntryAfter(w, step, time, id, Apply(w, step, time).db.queue)
  {
    if step.Save? || step.Restart? {
      var (sources, root) := Losing(w, step);
      var active := Active(w, step);
      var retired := Missing(sources, root, active);
      MissingIs(sources, root, active);
      MissingNames(sources, root, active, id);
      QueuedIs(w.db.queue - active, retired, |retired|, time, id);
      assert retired[..|retired|] == retired;
      assert Apply(w, step, time).db.queue == Queued(w.db.queue - active, retired, |retired|, time);
    }
  }

  predicate Names(retired: seq<(string, string, string)>, id: string) {
    exists e :: e in retired && e.0 == id
  }

  /** Missing are exactly the entries whose ids are not in force. */
  lemma {:induction false} MissingIs(previous: Sources, root: string, current: set<string>)
    ensures forall e :: e in Missing(previous, root, current) <==> (e.0, e.1) in previous && e.0 !in current && e.2 == root
  {
    if previous != [] {
      MissingIs(previous[1..], root, current);
      assert forall x :: x in previous <==> x == previous[0] || x in previous[1..];
    }
  }

  lemma MissingNames(previous: Sources, root: string, current: set<string>, id: string)
    ensures Names(Missing(previous, root, current), id) <==> HasId(previous, id) && id !in current
  {
    MissingIs(previous, root, current);
    if HasId(previous, id) && id !in current {
      var k :| 0 <= k < |previous| && previous[k].0 == id;
      assert previous[k] == (id, previous[k].1);
      assert (id, previous[k].1, root) in Missing(previous, root, current);
    }
    if Names(Missing(previous, root, current), id) {
      var e :| e in Missing(previous, root, current) && e.0 == id;
      var k :| 0 <= k < |previous| && previous[k] == (e.0, e.1);
    }
  }

  /** The queued entry is one of those given for its id; the first time and the attempts stay. */
  predicate QueuedFrom(queue: Queue, retired: seq<(string, string, string)>, time: int, id: string, r: Retired) {
    && (id, r.name, r.root) in retired && r.updatedAt == time && r.error == ""
    && r.attempts == (if id in queue then queue[id].attempts else 0)
    && r.queuedAt == (if id in queue then queue[id].queuedAt else time)
  }

  lemma {:induction false} QueuedIs(queue: Queue, retired: seq<(string, string, string)>, n: nat, time: int, id: string)
    requires n <= |retired|
    ensures var after := Queued(queue, retired, n, time);
            if Names(retired[..n], id) then id in after && QueuedFrom(queue, retired[..n], time, id, after[id])
            else (id in after <==> id in queue) && (id in queue ==> after[id] == queue[id])
  {
    if n > 0 {
      QueuedIs(queue, retired, n - 1, time, id);
      var last := retired[n - 1];
      assert retired[..n] == retired[..n - 1] + [last];
      assert last in retired[..n];
      assert last == (last.0, last.1, last.2);
      if Names(retired[..n - 1], id) {
        var e :| e in retired[..n - 1] && e.0 == id;
        assert e in retired[..n];
      }
    }
  }

  // ----- over runs -----

  lemma {:induction false} SnapshotsDistinct(states: seq<World>, steps: seq<Step>, j: nat)
    requires Run(states, steps) && j <= |steps|
    ensures SnapshotDistinct(states[j].db)
  {
    if j > 0 {
      SnapshotsDistinct(states, steps, j - 1);
      assert Follows(states[j - 1], steps[j - 1], states[j]);
      NormalizedClean(states[j - 1].configured, |states[j - 1].configured|);
      if steps[j - 1].Save? {
        NormalizedClean(steps[j - 1].configured, |steps[j - 1].configured|);
      }
    }
  }

  /** The step at `i` dropped the source, which was queued as it was last configured. */
  ghost predicate DroppedAt(states: seq<World>, steps: seq<Step>, i: nat, id: string, r: Retired)
    requires |states| == |steps| + 1 && i < |steps|
  {
    Queues(states[i], steps[i], id) && (id, r.name) in Losing(states[i], steps[i]).0 && r.root == Losing(states[i], steps[i]).1
  }

  /**
   * Who is queued was dropped: by a save or a start-up, from the list then in
   * force, with the name and root of that list, and has been neither cleaned up
   * nor configured again since.
   */
  lemma {:induction false} QueuedSince(states: seq<World>, steps: seq<Step>, j: nat, id: string) returns (i: nat)
    requires Run(states, steps) && j <= |steps| && id in states[j].db.queue
    ensures i < j && DroppedAt(states, steps, i, id, states[j].db.queue[id])
    ensures forall k :: i < k < j ==> steps[k] != CleanUp(id) && id !in Active(states[k], steps[k]) && !Queues(states[k], steps[k], id)
  {
    assert j > 0;
    assert Follows(states[j - 1], steps[j - 1], states[j]);
    var time :| states[j] == Apply(states[j - 1], steps[j - 1], time);
    SnapshotsDistinct(states, steps, j - 1);
    EntryStep(states[j - 1], steps[j - 1], time, id);
    if Queues(states[j - 1], steps[j - 1], id) {
      i := j - 1;
    } else {
      i := QueuedSince(states, steps, j - 1, id);
    }
  }

  /** And a dropped source stays queued until then. */
  lemma StaysQueued(states: seq<World>, steps: seq<Step>, i: nat, id: string)
    requires Run(states, steps) && i < |steps| && (id in states[i].db.queue || Queues(states[i], steps[i], id))
    ensures id in states[i + 1].db.queue <==> steps[i] != CleanUp(id) && id !in Active(states[i], steps[i])
  {
    assert Follows(states[i], steps[i], states[i + 1]);
    var time :| states[i + 1] == Apply(states[i], steps[i], time);
    SnapshotsDistinct(states, steps, i);
    EntryStep(states[i], steps[i], time, id);
  }

  /** Attempts to clean up a source since it entered the queue. */
  function Tries(states: seq<World>, steps: seq<Step>, j: nat, id: string): nat
    requires j <= |steps| && |states| == |steps| + 1
  {
    if j == 0 || id !in states[j - 1].db.queue then 0
    else Tries(states, steps, j - 1, id) + if steps[j - 1].Attempt? && steps[j - 1].id == id then 1 else 0
  }

  lemma {:induction false} AttemptsCounted(states: seq<World>, steps: seq<Step>, j: nat, id: string)
    requires Run(states, steps) && j <= |steps| && id in states[j].db.queue
    ensures states[j].db.queue[id].attempts == Tries(states, steps, j, id)
  {
    assert j > 0;
    AttemptsStep(states, steps, j - 1, id);
    if id in states[j - 1].db.queue {
      AttemptsCounted(states, steps, j - 1, id);
    }
  }

  lemma AttemptsStep(states: seq<World>, steps: seq<Step>, i: nat, id: string)
    requires Run(states, steps) && i < |steps| && id in states[i + 1].db.queue
    ensures states[i + 1].db.queue[id].attempts ==
            if id !in states[i].db.queue then 0
            else states[i].db.queue[id].attempts + if steps[i].Attempt? && steps[i].id == id then 1 else 0
  {
    assert Follows(states[i], steps[i], states[i + 1]);
    var time :| states[i + 1] == Apply(states[i], steps[i], time);
    SnapshotsDistinct(states, steps, i);
    EntryStep(states[i], steps[i], time, id);
  }

  /** The snapshot is what the last commit wrote: the settings saved, or those found at start-up. */
  lemma SnapshotAfter(states: seq<World>, steps: seq<Step>, i: nat)
    requires Run(states, steps) && i < |steps|
    ensures match steps[i]
            case Save(configured, root) => states[i + 1].db.snapshot == Some((Normalized(configured), root))
            case Restart => states[i + 1].db.snapshot == Some((Normalized(states[i].configured), states[i].root))
            case _ => states[i + 1].db.snapshot == states[i].db.snapshot
    ensures match steps[i]
            case Save(configured, root) => states[i + 1].configured == configured && states[i + 1].root == root
            case SaveCrashes(configured, root) => states[i + 1].configured == configured && states[i + 1].root == root
            case SaveRoot(root) => states[i + 1].configured == states[i].configured && states[i + 1].root == root
            case _ => states[i + 1].configured == states[i].configured && states[i + 1].root == states[i].root
  {
    assert Follows(states[i], steps[i], states[i + 1]);
  }

  /** Known are exactly the sources that some snapshot held. */
  lemma {:induction false} KnownSources(states: seq<World>, steps: seq<Step>, j: nat, id: string)
    requires Run(states, steps) && j <= |steps|
    ensures id in states[j].known <==> exists i :: 0 <= i <= j && id in SnapshotIds(states[i].db)
  {
    if j > 0 {
      KnownSources(states, steps, j - 1, id);
      assert Follows(states[j - 1], steps[j - 1], states[j]);
      SnapshotAfter(states, steps, j - 1);
      assert steps[j - 1].Save? || steps[j - 1].Restart? ==> SnapshotIds(states[j].db) == Active(states[j - 1], steps[j - 1]);
    }
  }

  ghost predicate CleanedAt(states: seq<World>, steps: seq<Step>, i: nat, j: nat, id: string)
    requires j <= |steps| && |states| == |steps| + 1
  {
    i < j && steps[i] == CleanUp(id) && id in states[i].db.queue && forall k :: i < k < j ==> id !in Active(states[k], steps[k])
  }

  /** Cleaned are exactly those whose clean-up was done and that have not been configured again. */
  lemma {:induction false} CleanedSources(states: seq<World>, steps: seq<Step>, j: nat, id: string)
    requires Run(states, steps) && j <= |steps|
    ensures id in states[j].cleaned <==> exists i: nat :: CleanedAt(states, steps, i, j, id)
  {
    if j > 0 {
      CleanedSources(states, steps, j - 1, id);
      assert Follows(states[j - 1], steps[j - 1], states[j]);
      var before: nat := j - 1;
      if i: nat :| CleanedAt(states, steps, i, before, id) {
        assert CleanedAt(states, steps, i, j, id) <==> id !in Active(states[j - 1], steps[j - 1]);
      }
      if i: nat :| CleanedAt(states, steps, i, j, id) {
        assert i < j - 1 ==> CleanedAt(states, steps, i, j - 1, id);
      }
      assert steps[j - 1] == CleanUp(id) && id in states[j - 1].db.queue ==> CleanedAt(states, steps, j - 1, j, id);
    }
  }
}
