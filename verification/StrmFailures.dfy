/**
 * The STRM failure ledger of app/database.py. A batch that verified some files
 * resolves only the failures it saw before it began; a row's counters are the
 * version it compares, because timestamps have a resolution of a second.
 */
module StrmFailures {
  import opened Basics

  datatype Status = Open | Retrying | Resolved

  datatype Kind = Generate | Metadata

  datatype Key = Key(source: string, file: string, kind: Kind)

  /**
   * `events` is not a column: it counts what a resolution must not hide, namely
   * every re-recorded failure and every departure from `open`.
   */
  datatype Failure = Failure(key: Key, error: string, status: Status, failures: nat, retries: nat, updatedAt: int, events: nat)

  type Rows = map<nat, Failure>

  datatype Ledger = Ledger(rows: Rows, nextId: nat)

  /** What `get_strm_failure_resolution_snapshot` remembers of one row. */
  datatype Seen = Seen(id: nat, failures: nat, retries: nat, updatedAt: int)

  type Snapshot = map<string, Seen>

  datatype Op =
    | Record(key: Key, error: string)
    | Claim(ids: set<nat>)
    | Resolve(id: nat, expected: Status)
    | ResolveItem(key: Key)
    | ResolveBatch(source: string, kind: Kind, files: set<string>, snapshot: Snapshot)
    | MarkStale(id: nat, expected: Status, error: string)
    | ReleaseRetry(id: nat, expected: Status, error: string)
    | UpdateRetry(id: nat, expected: Status, source: string, error: string)
    | Delete(ids: set<nat>)

  const EMPTY := Ledger(map[], 1)

  function Recorded(r: Failure, error: string, time: int): Failure {
    r.(status := Open, error := error, failures := r.failures + 1, updatedAt := time, events := r.events + 1)
  }

  function Claimed(r: Failure, time: int): Failure {
    r.(status := Retrying, retries := r.retries + 1, updatedAt := time, events := r.events + 1)
  }

  function Settled(r: Failure, time: int): Failure {
    r.(status := Resolved, updatedAt := time, events := if r.status.Open? then r.events + 1 else r.events)
  }

  function Released(r: Failure, error: string, time: int): Failure {
    r.(status := Open, error := error, updatedAt := time)
  }

  /** The ids in the order of their first occurrence. */
  function Distinct(ids: seq<nat>): (r: seq<nat>)
    ensures forall n :: n in r <==> n in ids
    ensures forall a, b :: 0 <= a < b < |r| ==> r[a] != r[b]
  {
    if ids == [] then []
    else
      var rest := Distinct(ids[..|ids| - 1]);
      assert ids == ids[..|ids| - 1] + [ids[|ids| - 1]];
      if ids[|ids| - 1] in rest then rest else rest + [ids[|ids| - 1]]
  }

  /** The ids a claim asks for; a limit below one counts as one. */
  function Requested(ids: seq<nat>, limit: int): set<nat> {
    var distinct, count := Distinct(ids), if limit > 1 then limit else 1;
    var asked := if count < |distinct| then distinct[..count] else distinct;
    set n | n in asked
  }

  function FileSet(files: seq<string>): set<string> {
    set f | f in files
  }

  predicate InBatch(id: nat, r: Failure, source: string, kind: Kind, files: set<string>, snapshot: Snapshot) {
    && r.key.source == source && r.key.kind == kind && r.status.Open?
    && r.key.file in files && r.key.file != "" && r.key.file in snapshot
    && snapshot[r.key.file] == Seen(id, r.failures, r.retries, r.updatedAt)
  }

  /** What an operation makes of one existing row; deletion is separate. */
  function RowAfter(id: nat, r: Failure, op: Op, time: int): Failure {
    match op
    case Record(key, error) => if r.key == key then Recorded(r, error, time) else r
    case Claim(ids) => if id in ids && r.status.Open? then Claimed(r, time) else r
    case Resolve(n, expected) => if id == n && r.status == expected then Settled(r, time) else r
    case ResolveItem(key) => if r.key == key && r.status.Open? then Settled(r, time) else r
    case ResolveBatch(source, kind, files, snapshot) =>
      if InBatch(id, r, source, kind, files, snapshot) then Settled(r, time) else r
    case MarkStale(n, expected, error) => if id == n && r.status == expected then Recorded(r, error, time) else r
    case ReleaseRetry(n, expected, error) => if id == n && r.status == expected then Released(r, error, time) else r
    case UpdateRetry(n, expected, source, error) =>
      if id == n && r.status == expected then Recorded(r, error, time).(key := r.key.(source := source)) else r
    case Delete(_) => r
  }

  predicate HasKey(rows: Rows, key: Key) {
    exists id :: id in rows && rows[id].key == key
  }

  /** A retry update that would collide with another row is refused by the unique constraint. */
  predicate Collides(rows: Rows, op: Op) {
    && op.UpdateRetry? && op.id in rows && rows[op.id].status == op.expected
    && exists other :: other in rows && other != op.id && rows[other].key == rows[op.id].key.(source := op.source)
  }

  function Apply(s: Ledger, op: Op, time: int): Ledger {
    if Collides(s.rows, op) then s
    else
      var rows := map id | id in s.rows :: RowAfter(id, s.rows[id], op, time);
      if op.Delete? then s.(rows := rows - op.ids)
      else if op.Record? && !HasKey(s.rows, op.key) then
        Ledger(rows[s.nextId := Failure(op.key, op.error, Open, 1, 0, time, 1)], s.nextId + 1)
      else s.(rows := rows)
  }

  // ----- the ledger as a table -----

  class FailureLedger {
    var rows: Rows
    var nextId: nat

    ghost function View(): Ledger
      reads this
    {
      Ledger(rows, nextId)
    }

    constructor ()
      ensures View() == EMPTY
    {
      rows, nextId := map[], 1;
    }

    /** The row with this key, if any. */
    method Find(key: Key) returns (id: Option<nat>)
      ensures id.Some? ==> id.value in rows && rows[id.value].key == key
      ensures id.None? ==> !HasKey(rows, key)
    {
      var left := rows.Keys;
      while left != {}
        invariant left <= rows.Keys && forall n :: n in rows.Keys - left ==> rows[n].key != key
        decreases left
      {
        var n :| n in left;
        if rows[n].key == key {
          return Some(n);
        }
        left := left - {n};
      }
      id := None;
    }

    method RecordFailure(key: Key, error: string, time: int) returns (id: nat)
      requires Inv(View())
      modifies this
      ensures View() == Apply(old(View()), Record(key, error), time)
      ensures id in rows && rows[id].key == key && rows[id].status.Open? && rows[id].error == error
    {
      var found := Find(key);
      if found.Some? {
        id := found.value;
        var r := rows[id];
        var next := rows[id := r.(status := Open, error := error, failures := r.failures + 1, updatedAt := time, events := r.events + 1)];
        assert next == map n | n in rows :: RowAfter(n, rows[n], Record(key, error), time);
        rows := next;
      } else {
        assert rows == map n | n in rows :: RowAfter(n, rows[n], Record(key, error), time);
        id := nextId;
        rows := rows[id := Failure(key, error, Open, 1, 0, time, 1)];
        nextId := nextId + 1;
      }
    }

    /** The requested ids, without repeats and up to the limit; `claimed` are exactly the rows of them that were open. */
    method ClaimFailures(ids: seq<nat>, limit: int, time: int) returns (claimed: set<nat>)
      modifies this
      ensures View() == Apply(old(View()), Claim(Requested(ids, limit)), time)
      ensures forall n :: n in claimed <==> n in Requested(ids, limit) && n in old(rows) && old(rows)[n].status.Open?
    {
      var normalized := [];
      for i := 0 to |ids|
        invariant normalized == Distinct(ids[..i])
      {
        assert ids[..i + 1][..i] == ids[..i];
        if ids[i] !in normalized {
          normalized := normalized + [ids[i]];
        }
      }
      assert ids[..|ids|] == ids;
      var count := if limit > 1 then limit else 1;
      var asked := if count < |normalized| then normalized[..count] else normalized;
      claimed := set n | n in asked && n in rows && rows[n].status.Open?;
      rows := map n | n in rows :: if n in claimed then Claimed(rows[n], time) else rows[n];
    }

    method ResolveFailure(id: nat, expected: Status, time: int) returns (changed: bool)
      modifies this
      ensures View() == Apply(old(View()), Resolve(id, expected), time)
      ensures changed <==> id in old(rows) && old(rows)[id].status == expected
    {
      changed := id in rows && rows[id].status == expected;
      ghost var next := map n | n in rows :: RowAfter(n, rows[n], Resolve(id, expected), time);
      if changed {
        assert next == rows[id := Settled(rows[id], time)];
        rows := rows[id := Settled(rows[id], time)];
      } else {
        assert next == rows;
      }
    }

    /** The rows of one source that are open, by action and file. */
    method ResolutionSnapshot(source: string, kind: Kind) returns (snapshot: Snapshot)
      requires Inv(View())
      ensures forall f :: f in snapshot <==> exists id :: id in rows && rows[id].key == Key(source, f, kind) && rows[id].status.Open?
      ensures forall id :: id in rows && rows[id].status.Open? && rows[id].key.source == source && rows[id].key.kind == kind ==>
                             && rows[id].key.file in snapshot
                             && snapshot[rows[id].key.file] == Seen(id, rows[id].failures, rows[id].retries, rows[id].updatedAt)
    {
      snapshot := map[];
      var left := rows.Keys;
      while left != {}
        invariant left <= rows.Keys
        invariant forall f :: f in snapshot ==> snapshot[f].id in rows.Keys - left && rows[snapshot[f].id].key == Key(source, f, kind) && rows[snapshot[f].id].status.Open?
        invariant forall id :: id in rows.Keys - left && rows[id].status.Open? && rows[id].key.source == source && rows[id].key.kind == kind ==>
                                 && rows[id].key.file in snapshot
                                 && snapshot[rows[id].key.file] == Seen(id, rows[id].failures, rows[id].retries, rows[id].updatedAt)
        decreases left
      {
        var id :| id in left;
        left := left - {id};
        var r := rows[id];
        if r.status.Open? && r.key.source == source && r.key.kind == kind {
          snapshot := snapshot[r.key.file := Seen(id, r.failures, r.retries, r.updatedAt)];
        }
      }
    }

    /** One statement per chunk of files, all in one transaction: the same as one statement for all. */
    method ResolveBatchOf(source: string, kind: Kind, files: seq<string>, snapshot: Snapshot, chunk: nat, time: int)
      requires chunk >= 1
      modifies this
      ensures View() == Apply(old(View()), ResolveBatch(source, kind, FileSet(files), snapshot), time)
    {
      var offset := 0;
      ghost var before := rows;
      assert rows == map id | id in before :: RowAfter(id, before[id], ResolveBatch(source, kind, FileSet(files[..0]), snapshot), time);
      while offset < |files|
        invariant offset <= |files| && nextId == old(nextId)
        invariant rows == map id | id in before :: RowAfter(id, before[id], ResolveBatch(source, kind, FileSet(files[..offset]), snapshot), time)
      {
        var end := if offset + chunk < |files| then offset + chunk else |files|;
        var part := FileSet(files[offset..end]);
        ghost var was := rows;
        rows := map id | id in rows :: if InBatch(id, rows[id], source, kind, part, snapshot) then Settled(rows[id], time) else rows[id];
        ChunkAdds(before, was, rows, source, kind, files, snapshot, offset, end, time);
        offset := end;
      }
      assert files[..offset] == files;
    }

    method MarkStaleFailure(id: nat, expected: Status, error: string, time: int) returns (changed: bool)
      modifies this
      ensures View() == Apply(old(View()), MarkStale(id, expected, error), time)
      ensures changed <==> id in old(rows) && old(rows)[id].status == expected
    {
      changed := id in rows && rows[id].status == expected;
      ghost var next := map n | n in rows :: RowAfter(n, rows[n], MarkStale(id, expected, error), time);
      if changed {
        assert next == rows[id := Recorded(rows[id], error, time)];
        rows := rows[id := Recorded(rows[id], error, time)];
      } else {
        assert next == rows;
      }
    }

    method ReleaseRetryOf(id: nat, expected: Status, error: string, time: int) returns (changed: bool)
      modifies this
      ensures View() == Apply(old(View()), ReleaseRetry(id, expected, error), time)
      ensures changed <==> id in old(rows) && old(rows)[id].status == expected
    {
      changed := id in rows && rows[id].status == expected;
      ghost var next := map n | n in rows :: RowAfter(n, rows[n], ReleaseRetry(id, expected, error), time);
      if changed {
        assert next == rows[id := Released(rows[id], error, time)];
        rows := rows[id := Released(rows[id], error, time)];
      } else {
        assert next == rows;
      }
    }

    method ResolveForItem(key: Key, time: int)
      modifies this
      ensures View() == Apply(old(View()), ResolveItem(key), time)
    {
      rows := map n | n in rows :: if rows[n].key == key && rows[n].status.Open? then Settled(rows[n], time) else rows[n];
    }

    /** The row may move to another source; a collision with an existing row refuses the update. */
    method UpdateRetryOf(id: nat, expected: Status, source: string, error: string, time: int) returns (changed: bool)
      requires Inv(View())
      modifies this
      ensures View() == Apply(old(View()), UpdateRetry(id, expected, source, error), time)
      ensures changed <==> id in old(rows) && old(rows)[id].status == expected &&
                           forall n :: n in old(rows) && n != id ==> old(rows)[n].key != old(rows)[id].key.(source := source)
    {
      changed := id in rows && rows[id].status == expected;
      ghost var op := UpdateRetry(id, expected, source, error);
      ghost var next := map n | n in rows :: RowAfter(n, rows[n], op, time);
      if !changed {
        assert next == rows;
        return;
      }
      var key := rows[id].key.(source := source);
      var found := Find(key);
      if found.Some? && found.value != id {
        return false;
      }
      if found.Some? {
        assert forall other :: other in rows && rows[other].key == key ==> other == id;
      }
      var r := Recorded(rows[id], error, time).(key := key);
      assert next == rows[id := r];
      rows := rows[id := r];
    }

    method DeleteFailures(ids: set<nat>, time: int)
      modifies this
      ensures View() == Apply(old(View()), Delete(ids), time)
    {
      assert rows == map n | n in rows :: RowAfter(n, rows[n], Delete(ids), time);
      rows := rows - ids;
    }
  }

  /** Settling one more chunk of files is settling the longer prefix. */
  lemma ChunkAdds(before: Rows, was: Rows, now: Rows, source: string, kind: Kind, files: seq<string>, snapshot: Snapshot, offset: nat, end: nat, time: int)
    requires offset <= end <= |files|
    requires was == map id | id in before :: RowAfter(id, before[id], ResolveBatch(source, kind, FileSet(files[..offset]), snapshot), time)
    requires now == map id | id in was :: if InBatch(id, was[id], source, kind, FileSet(files[offset..end]), snapshot) then Settled(was[id], time) else was[id]
    ensures now == map id | id in before :: RowAfter(id, before[id], ResolveBatch(source, kind, FileSet(files[..end]), snapshot), time)
  {
    assert files[..end] == files[..offset] + files[offset..end];
    forall id | id in before
      ensures now[id] == RowAfter(id, before[id], ResolveBatch(source, kind, FileSet(files[..end]), snapshot), time)
    {
      var file := before[id].key.file;
      assert file in files[..end] <==> file in files[..offset] || file in files[offset..end];
    }
  }

  // ----- invariant and runs -----

  ghost predicate Inv(s: Ledger) {
    && (forall id :: id in s.rows ==> id < s.nextId && s.rows[id].failures >= 1)
    && (forall a, b :: a in s.rows && b in s.rows && s.rows[a].key == s.rows[b].key ==> a == b)
  }

  /** Without a collision, an operation keeps the keys of existing rows apart. */
  lemma KeysApart(s: Ledger, op: Op, time: int, a: nat, b: nat)
    requires Inv(s) && !Collides(s.rows, op) && a in s.rows && b in s.rows && a != b
    ensures RowAfter(a, s.rows[a], op, time).key != RowAfter(b, s.rows[b], op, time).key
  {
    assert s.rows[a].key != s.rows[b].key;
    if op.UpdateRetry? && (op.id == a || op.id == b) {
      var other := if op.id == a then b else a;
      assert s.rows[op.id].status == op.expected ==> s.rows[other].key != s.rows[op.id].key.(source := op.source);
    }
  }

  lemma RowGrows(id: nat, r: Failure, op: Op, time: int)
    ensures RowAfter(id, r, op, time).failures >= r.failures
    ensures op.Record? ==> RowAfter(id, r, op, time).key == r.key
  {
  }

  lemma InvStep(s: Ledger, op: Op, time: int)
    requires Inv(s)
    ensures Inv(Apply(s, op, time))
  {
    if !Collides(s.rows, op) {
      var s' := Apply(s, op, time);
      forall id | id in s'.rows ensures id < s'.nextId && s'.rows[id].failures >= 1 {
        if id in s.rows {
          RowGrows(id, s.rows[id], op, time);
        }
      }
      forall a, b | a in s'.rows && b in s'.rows && s'.rows[a].key == s'.rows[b].key ensures a == b {
        if a in s.rows && b in s.rows && a != b {
          KeysApart(s, op, time, a, b);
        } else if a in s.rows {
          RowGrows(a, s.rows[a], op, time);
        } else if b in s.rows {
          RowGrows(b, s.rows[b], op, time);
        }
      }
    }
  }

  function Version(r: Failure): nat {
    r.failures + r.retries
  }

  /** A release never expects a row that is resolved. */
  predicate Honest(op: Op) {
    op.ReleaseRetry? ==> op.expected != Resolved
  }

  /**
   * What can have become of an open row: its version has grown, or it is still
   * open and nothing happened to it, or it was resolved straight from there.
   */
  predicate Since(r: Failure, r': Failure) {
    || Version(r) < Version(r')
    || (Version(r) == Version(r') && r'.failures == r.failures && r'.status.Open? && r'.events == r.events)
    || (Version(r) == Version(r') && r'.status.Resolved?)
  }

  lemma SinceStep(r: Failure, id: nat, mid: Failure, op: Op, time: int)
    requires Since(r, mid) && Honest(op)
    ensures Since(r, RowAfter(id, mid, op, time))
  {
  }

  lemma SinceFails(op: Op) returns (r: Failure)
    requires !Honest(op)
    ensures Since(r, Settled(r, 0)) && !Since(r, RowAfter(op.id, Settled(r, 0), op, 0))
  {
    r := Failure(Key("", "", Generate), "", Open, 1, 0, 0, 1);
  }

  /** The honest operations are exactly those that never bring a row back to `open` under the version it had. */
  lemma HonestIff(op: Op)
    ensures Honest(op) <==> forall r, id, mid, time :: Since(r, mid) ==> Since(r, RowAfter(id, mid, op, time))
  {
    if Honest(op) {
      forall r, id, mid, time | Since(r, mid) ensures Since(r, RowAfter(id, mid, op, time)) {
        SinceStep(r, id, mid, op, time);
      }
    } else {
      var r := SinceFails(op);
      assert Since(r, Settled(r, 0));
    }
  }

  /** The row is resolved and the operation releases it all the same. */
  predicate Reopens(s: Ledger, op: Op, id: nat) {
    op.ReleaseRetry? && op.id == id && op.expected.Resolved? && id in s.rows && s.rows[id].status.Resolved?
  }

  /** What can have become of an open row, given whether it was reopened from `resolved` on the way. */
  predicate Trail(r: Failure, r': Failure, reopened: bool) {
    && r.failures <= r'.failures && r.retries <= r'.retries
    && (Version(r) < Version(r') ||
        match r'.status
        case Open => if reopened then r.events < r'.events else r'.events == r.events
        case Resolved => r.events < r'.events
        case Retrying => false)
  }

  lemma TrailStep(r: Failure, s: Ledger, op: Op, time: int, id: nat, reopened: bool)
    requires id in s.rows && Trail(r, s.rows[id], reopened)
    ensures Trail(r, RowAfter(id, s.rows[id], op, time), reopened || Reopens(s, op, id))
  {
  }

  datatype Event = Event(op: Op, time: int)

  ghost predicate Follows(s: Ledger, e: Event, s': Ledger) {
    s' == Apply(s, e.op, e.time)
  }

  ghost predicate Run(states: seq<Ledger>, events: seq<Event>) {
    && |states| == |events| + 1 && states[0] == EMPTY
    && forall i :: 0 <= i < |events| ==> Follows(states[i], events[i], states[i + 1])
  }

  lemma {:induction false} InvAlways(states: seq<Ledger>, events: seq<Event>, i: nat)
    requires Run(states, events) && i <= |events|
    ensures Inv(states[i])
  {
    if i > 0 {
      InvAlways(states, events, i - 1);
      assert Follows(states[i - 1], events[i - 1], states[i]);
      InvStep(states[i - 1], events[i - 1].op, events[i - 1].time);
    }
  }

  lemma RowOrigin(s: Ledger, e: Event, s': Ledger, id: nat)
    requires Inv(s) && Follows(s, e, s') && id in s'.rows && id < s.nextId
    ensures id in s.rows
    ensures s'.rows[id] == RowAfter(id, s.rows[id], e.op, e.time) || (e.op.UpdateRetry? && s'.rows[id] == s.rows[id])
  {
  }

  ghost predicate Reopened(states: seq<Ledger>, events: seq<Event>, i: nat, j: nat, id: nat)
    requires j <= |events| && j <= |states|
  {
    exists k :: i <= k < j && Reopens(states[k], events[k].op, id)
  }

  /** Ids are never reused, so a row that is there later was there all along. */
  lemma {:induction false} TrailAlways(states: seq<Ledger>, events: seq<Event>, i: nat, j: nat, id: nat)
    requires Run(states, events) && i <= j <= |events|
    requires id in states[i].rows && states[i].rows[id].status.Open? && id in states[j].rows
    ensures Trail(states[i].rows[id], states[j].rows[id], Reopened(states, events, i, j, id))
  {
    if i < j {
      var s, e := states[j - 1], events[j - 1];
      IdKnown(states, events, i, j - 1, id);
      assert Follows(s, e, states[j]);
      RowOrigin(s, e, states[j], id);
      TrailAlways(states, events, i, j - 1, id);
      TrailStep(states[i].rows[id], s, e.op, e.time, id, Reopened(states, events, i, j - 1, id));
      assert Reopened(states, events, i, j, id) <==> Reopened(states, events, i, j - 1, id) || Reopens(s, e.op, id);
    }
  }

  lemma IdKnown(states: seq<Ledger>, events: seq<Event>, i: nat, j: nat, id: nat)
    requires Run(states, events) && i <= j <= |events| && id in states[i].rows
    ensures Inv(states[j]) && id < states[j].nextId
  {
    InvAlways(states, events, i);
    InvAlways(states, events, j);
    NextIdGrows(states, events, i, j);
  }

  lemma {:induction false} NextIdGrows(states: seq<Ledger>, events: seq<Event>, i: nat, j: nat)
    requires Run(states, events) && i <= j <= |events|
    ensures states[i].nextId <= states[j].nextId
  {
    if i < j {
      NextIdGrows(states, events, i, j - 1);
      assert Follows(states[j - 1], events[j - 1], states[j]);
    }
  }

  /**
   * The counters of a row are its version: if an open row has the counters it
   * had, then nothing happened to it in between if and only if no release
   * reopened it while it was resolved.
   */
  lemma SameVersionMeansUntouched(states: seq<Ledger>, events: seq<Event>, i: nat, j: nat, id: nat)
    requires Run(states, events) && i <= j <= |events|
    requires id in states[i].rows && states[i].rows[id].status.Open? && id in states[j].rows && states[j].rows[id].status.Open?
    requires states[i].rows[id].failures == states[j].rows[id].failures && states[i].rows[id].retries == states[j].rows[id].retries
    ensures states[i].rows[id].events == states[j].rows[id].events <==> !Reopened(states, events, i, j, id)
  {
    TrailAlways(states, events, i, j, id);
  }

  /** The snapshot remembers exactly the open rows of the source in state `s`. */
  ghost predicate TakenFrom(s: Ledger, source: string, kind: Kind, snapshot: Snapshot) {
    && (forall f :: f in snapshot ==> Remembers(s, source, kind, snapshot, f))
    && (forall id :: id in s.rows && s.rows[id].status.Open? && s.rows[id].key.source == source && s.rows[id].key.kind == kind ==>
                       s.rows[id].key.file in snapshot && snapshot[s.rows[id].key.file].id == id)
  }

  ghost predicate Remembers(s: Ledger, source: string, kind: Kind, snapshot: Snapshot, f: string)
    requires f in snapshot
  {
    && snapshot[f].id in s.rows
    && var r := s.rows[snapshot[f].id];
       r.status.Open? && r.key == Key(source, f, kind) && snapshot[f] == Seen(snapshot[f].id, r.failures, r.retries, r.updatedAt)
  }

  /** Row `id`, open in both states, is the same version of the same failure with the same time stamp. */
  predicate SameRow(s: Ledger, s': Ledger, id: nat) {
    && id in s.rows && s.rows[id].status.Open? && id in s'.rows && s'.rows[id].status.Open?
    && s.rows[id].key == s'.rows[id].key && s.rows[id].updatedAt == s'.rows[id].updatedAt
    && s.rows[id].failures == s'.rows[id].failures && s.rows[id].retries == s'.rows[id].retries
  }

  /**
   * A batch resolves an open row of its files if and only if the row is as the
   * snapshot saw it.
   */
  lemma BatchResolvesUntouched(states: seq<Ledger>, events: seq<Event>, i: nat, j: nat, id: nat)
    requires Run(states, events) && i <= j < |events| && events[j].op.ResolveBatch?
    requires var op := events[j].op; TakenFrom(states[i], op.source, op.kind, op.snapshot)
    requires id in states[j].rows && states[j].rows[id].status.Open?
    requires var op, key := events[j].op, states[j].rows[id].key;
             key.source == op.source && key.kind == op.kind && key.file in op.files && key.file != ""
    ensures id in states[j + 1].rows
    ensures states[j + 1].rows[id].status.Resolved? <==> SameRow(states[i], states[j], id)
  {
    assert Follows(states[j], events[j], states[j + 1]);
    var op, file := events[j].op, states[j].rows[id].key.file;
    assert file in op.snapshot ==> Remembers(states[i], op.source, op.kind, op.snapshot, file);
  }

  /**
   * And what it resolves hides nothing, even if every time stamp in between is
   * the same: no failure was recorded for the row, and it did not leave the open
   * state, since the snapshot was taken, if and only if no release reopened it
   * while it was resolved.
   */
  lemma BatchHidesNothing(states: seq<Ledger>, events: seq<Event>, i: nat, j: nat, id: nat)
    requires Run(states, events) && i <= j < |events| && events[j].op.ResolveBatch?
    requires TakenFrom(states[i], events[j].op.source, events[j].op.kind, events[j].op.snapshot)
    requires id in states[j].rows && states[j].rows[id].status.Open?
    requires id in states[j + 1].rows && states[j + 1].rows[id].status.Resolved?
    ensures id in states[i].rows && states[i].rows[id].status.Open?
    ensures states[i].rows[id].events == states[j].rows[id].events <==> !Reopened(states, events, i, j, id)
  {
    assert Follows(states[j], events[j], states[j + 1]);
    assert InBatch(id, states[j].rows[id], events[j].op.source, events[j].op.kind, events[j].op.files, events[j].op.snapshot);
    assert Remembers(states[i], events[j].op.source, events[j].op.kind, events[j].op.snapshot, states[j].rows[id].key.file);
    SameVersionMeansUntouched(states, events, i, j, id);
  }

  /** With callers that release only what is not resolved, that condition is met. */
  lemma HonestNeverReopen(states: seq<Ledger>, events: seq<Event>, i: nat, j: nat, id: nat)
    requires Run(states, events) && i <= j <= |events| && forall k :: i <= k < j ==> Honest(events[k].op)
    ensures !Reopened(states, events, i, j, id)
  {
    forall k | i <= k < j ensures !Reopens(states[k], events[k].op, id) {
      assert Honest(events[k].op);
    }
  }

  function After(states: seq<Ledger>, op: Op, time: int): seq<Ledger>
    requires |states| > 0
  {
    states + [Apply(states[|states| - 1], op, time)]
  }

  /**
   * The exception is real: within one second a row is resolved, released and
   * thereby reopened, and a batch whose snapshot is from before resolves it
   * although it had left the open state in between.
   */
  lemma ReleaseOfResolvedHides(key: Key, time: int) returns (states: seq<Ledger>, events: seq<Event>)
    requires key.file != ""
    ensures Run(states, events) && |events| == 4 && events[2].op == ReleaseRetry(1, Resolved, "again")
    ensures events[3].op.ResolveBatch? && TakenFrom(states[1], key.source, key.kind, events[3].op.snapshot)
    ensures 1 in states[1].rows && 1 in states[3].rows && 1 in states[4].rows
    ensures states[1].rows[1].status.Open? && states[3].rows[1].status.Open? && states[4].rows[1].status.Resolved?
    ensures states[1].rows[1].events < states[3].rows[1].events
  {
    var batch := ResolveBatch(key.source, key.kind, {key.file}, map[key.file := Seen(1, 1, 0, time)]);
    var ops := [Record(key, "first"), Resolve(1, Open), ReleaseRetry(1, Resolved, "again"), batch];
    states := After(After(After(After([EMPTY], ops[0], time), ops[1], time), ops[2], time), ops[3], time);
    events := [Event(ops[0], time), Event(ops[1], time), Event(ops[2], time), Event(ops[3], time)];
    forall i | 0 <= i < 4 ensures Follows(states[i], events[i], states[i + 1]) {
    }
  }
}
