/**
 * What a row of the STRM failure ledger owes to the history of the ledger:
 * which call last wrote it, what its counters count, and which rows a claim
 * takes.
 */
module FailureHistory {
  import opened StrmFailures

  // ----- what a call does to one row -----

  /** Another row stands where the retry update would move this one. */
  ghost predicate Blocked(rows: Rows, id: nat, source: string)
    requires id in rows
  {
    exists other :: other in rows && other != id && rows[other].key == Key(source, rows[id].key.file, rows[id].key.kind)
  }

  /** The call writes row `id`. */
  ghost predicate Touches(rows: Rows, op: Op, id: nat)
    requires id in rows
  {
    var r := rows[id];
    match op
    case Record(key, _) => r.key == key
    case Claim(ids) => id in ids && r.status.Open?
    case Resolve(n, expected) => id == n && r.status == expected
    case ResolveItem(key) => r.key == key && r.status.Open?
    case ResolveBatch(source, kind, files, snapshot) =>
      && r.status.Open? && r.key.source == source && r.key.kind == kind && r.key.file != "" && r.key.file in files
      && r.key.file in snapshot && snapshot[r.key.file] == Seen(id, r.failures, r.retries, r.updatedAt)
    case MarkStale(n, expected, _) => id == n && r.status == expected
    case ReleaseRetry(n, expected, _) => id == n && r.status == expected
    case UpdateRetry(n, expected, source, _) => id == n && r.status == expected && !Blocked(rows, id, source)
    case Delete(_) => false
  }

  /** What it makes of the columns of the row. */
  predicate Writes(r: Failure, op: Op, time: int, r': Failure) {
    && r'.updatedAt == time
    && match op
       case Record(_, error) => Reported(r, error, r.key, r')
       case Claim(_) => r'.status.Retrying? && r'.error == r.error && r'.key == r.key && r'.failures == r.failures && r'.retries == r.retries + 1
       case Resolve(_, _) => IsSettled(r, r')
       case ResolveItem(_) => IsSettled(r, r')
       case ResolveBatch(_, _, _, _) => IsSettled(r, r')
       case MarkStale(_, _, error) => Reported(r, error, r.key, r')
       case ReleaseRetry(_, _, error) =>
         r'.status.Open? && r'.error == error && r'.key == r.key && r'.failures == r.failures && r'.retries == r.retries
       case UpdateRetry(_, _, source, error) => Reported(r, error, Key(source, r.key.file, r.key.kind), r')
       case Delete(_) => false
  }

  /** One more failure, and open again. */
  predicate Reported(r: Failure, error: string, key: Key, r': Failure) {
    r'.status.Open? && r'.error == error && r'.key == key && r'.failures == r.failures + 1 && r'.retries == r.retries
  }

  predicate IsSettled(r: Failure, r': Failure) {
    r'.status.Resolved? && r'.error == r.error && r'.key == r.key && r'.failures == r.failures && r'.retries == r.retries
  }

  ghost predicate Inserts(s: Ledger, op: Op, id: nat) {
    op.Record? && id == s.nextId && forall n :: n in s.rows ==> s.rows[n].key != op.key
  }

  lemma RowStep(s: Ledger, op: Op, time: int, id: nat)
    requires Inv(s)
    ensures var rows' := Apply(s, op, time).rows;
            && (id in rows' <==> (id in s.rows && !(op.Delete? && id in op.ids)) || Inserts(s, op, id))
            && (id in s.rows && id in rows' && Touches(s.rows, op, id) ==> Writes(s.rows[id], op, time, rows'[id]))
            && (id in s.rows && id in rows' && !Touches(s.rows, op, id) ==> rows'[id] == s.rows[id])
            && (Inserts(s, op, id) ==>
                  var r := rows'[id];
                  r.key == op.key && r.error == op.error && r.status.Open? && r.failures == 1 && r.retries == 0 && r.updatedAt == time)
  {
    assert op.Record? ==> (HasKey(s.rows, op.key) <==> !forall n :: n in s.rows ==> s.rows[n].key != op.key);
    if id in s.rows && op.UpdateRetry? && op.id == id && s.rows[id].status == op.expected {
      assert s.rows[id].key.(source := op.source) == Key(op.source, s.rows[id].key.file, s.rows[id].key.kind);
      assert Collides(s.rows, op) <==> Blocked(s.rows, id, op.source);
    }
  }

  ghost predicate TouchedAt(states: seq<Ledger>, events: seq<Event>, i: nat, id: nat)
    requires |states| == |events| + 1 && i < |events|
  {
    id in states[i].rows && Touches(states[i].rows, events[i].op, id)
  }

  ghost predicate InsertedAt(states: seq<Ledger>, events: seq<Event>, i: nat, id: nat)
    requires |states| == |events| + 1 && i < |events|
  {
    Inserts(states[i], events[i].op, id)
  }

  ghost predicate Quiet(states: seq<Ledger>, events: seq<Event>, i: nat, j: nat, id: nat)
    requires |states| == |events| + 1 && j <= |events|
  {
    forall k: nat :: i <= k < j ==> !TouchedAt(states, events, k, id) && !InsertedAt(states, events, k, id)
  }

  lemma StepAt(states: seq<Ledger>, events: seq<Event>, i: nat, id: nat)
    requires Run(states, events) && i < |events|
    ensures id in states[i + 1].rows <==>
              (id in states[i].rows && !(events[i].op.Delete? && id in events[i].op.ids)) || InsertedAt(states, events, i, id)
    ensures TouchedAt(states, events, i, id) && id in states[i + 1].rows ==>
              Writes(states[i].rows[id], events[i].op, events[i].time, states[i + 1].rows[id])
    ensures id in states[i].rows && id in states[i + 1].rows && !TouchedAt(states, events, i, id) ==> states[i + 1].rows[id] == states[i].rows[id]
    ensures InsertedAt(states, events, i, id) ==>
              && id !in states[i].rows && id in states[i + 1].rows
              && var r := states[i + 1].rows[id];
                 && r.key == events[i].op.key && r.error == events[i].op.error && r.status.Open? && r.failures == 1 && r.retries == 0
                 && r.updatedAt == events[i].time
  {
    InvAlways(states, events, i);
    assert Follows(states[i], events[i], states[i + 1]);
    RowStep(states[i], events[i].op, events[i].time, id);
  }

  /** A row is as the last call that wrote it left it. */
  lemma {:induction false} WrittenBy(states: seq<Ledger>, events: seq<Event>, j: nat, id: nat) returns (i: nat)
    requires Run(states, events) && j <= |events| && id in states[j].rows
    ensures i < j && Quiet(states, events, i + 1, j, id)
    ensures || (TouchedAt(states, events, i, id) && Writes(states[i].rows[id], events[i].op, events[i].time, states[j].rows[id]))
            || (InsertedAt(states, events, i, id) && states[j].rows[id].key == events[i].op.key && states[j].rows[id].status.Open?
                && states[j].rows[id].error == events[i].op.error && states[j].rows[id].updatedAt == events[i].time)
  {
    assert j > 0;
    StepAt(states, events, j - 1, id);
    if TouchedAt(states, events, j - 1, id) || InsertedAt(states, events, j - 1, id) {
      i := j - 1;
    } else {
      i := WrittenBy(states, events, j - 1, id);
    }
  }

  lemma {:induction false} QuietKeeps(states: seq<Ledger>, events: seq<Event>, i: nat, j: nat, id: nat)
    requires Run(states, events) && i <= j <= |events| && Quiet(states, events, i, j, id) && id in states[j].rows
    ensures id in states[i].rows && states[j].rows[id] == states[i].rows[id]
  {
    if i < j {
      StepAt(states, events, j - 1, id);
      assert !TouchedAt(states, events, j - 1, id) && !InsertedAt(states, events, j - 1, id);
      QuietKeeps(states, events, i, j - 1, id);
    }
  }

  // ----- counters -----

  /** Failures of the row: its insertion, and every call that reports another. */
  ghost function Reports(states: seq<Ledger>, events: seq<Event>, j: nat, id: nat): nat
    requires |states| == |events| + 1 && j <= |events|
  {
    if j == 0 then 0
    else
      Reports(states, events, j - 1, id) + if ReportedAt(states, events, j - 1, id) then 1 else 0
  }

  ghost function Claims(states: seq<Ledger>, events: seq<Event>, j: nat, id: nat): nat
    requires |states| == |events| + 1 && j <= |events|
  {
    if j == 0 then 0
    else Claims(states, events, j - 1, id) + if TouchedAt(states, events, j - 1, id) && events[j - 1].op.Claim? then 1 else 0
  }

  /** The counters of a row are exactly the failures reported for it and the claims that took it. */
  lemma {:induction false} CountersCount(states: seq<Ledger>, events: seq<Event>, j: nat, id: nat)
    requires Run(states, events) && j <= |events|
    ensures id in states[j].rows ==>
              states[j].rows[id].failures == Reports(states, events, j, id) && states[j].rows[id].retries == Claims(states, events, j, id)
    ensures id >= states[j].nextId ==> Reports(states, events, j, id) == 0 && Claims(states, events, j, id) == 0
  {
    if j > 0 {
      CountersCount(states, events, j - 1, id);
      InvAlways(states, events, j - 1);
      NextIdGrows(states, events, j - 1, j);
      StepAt(states, events, j - 1, id);
      NumberUsed(states[j - 1], events[j - 1], states[j], id);
    }
  }

  ghost predicate ReportedAt(states: seq<Ledger>, events: seq<Event>, i: nat, id: nat)
    requires |states| == |events| + 1 && i < |events|
  {
    var op := events[i].op;
    InsertedAt(states, events, i, id) || (TouchedAt(states, events, i, id) && (op.Record? || op.MarkStale? || op.UpdateRetry?))
  }

  predicate Departs(s: Ledger, s': Ledger, id: nat) {
    id in s.rows && s.rows[id].status.Open? && id in s'.rows && !s'.rows[id].status.Open?
  }

  function Departures(states: seq<Ledger>, j: nat, id: nat): nat
    requires j < |states|
  {
    if j == 0 then 0 else Departures(states, j - 1, id) + if Departs(states[j - 1], states[j], id) then 1 else 0
  }

  /** What a resolution must not hide is exactly this: reports, and departures from the open state. */
  lemma {:induction false} EventsCount(states: seq<Ledger>, events: seq<Event>, j: nat, id: nat)
    requires Run(states, events) && j <= |events|
    ensures id in states[j].rows ==> states[j].rows[id].events == Reports(states, events, j, id) + Departures(states, j, id)
    ensures id >= states[j].nextId ==> Departures(states, j, id) == 0
  {
    if j > 0 {
      EventsCount(states, events, j - 1, id);
      CountersCount(states, events, j - 1, id);
      InvAlways(states, events, j - 1);
      NextIdGrows(states, events, j - 1, j);
      StepAt(states, events, j - 1, id);
      assert Follows(states[j - 1], events[j - 1], states[j]);
      EventStep(states[j - 1], events[j - 1].op, events[j - 1].time, id);
    }
  }

  lemma EventStep(s: Ledger, op: Op, time: int, id: nat)
    requires Inv(s)
    ensures var s' := Apply(s, op, time);
            && (Inserts(s, op, id) ==> id in s'.rows && s'.rows[id].events == 1)
            && (id in s.rows && id in s'.rows ==>
                  s'.rows[id].events == s.rows[id].events + (if Departs(s, s', id) then 1 else 0) +
                                        if Touches(s.rows, op, id) && (op.Record? || op.MarkStale? || op.UpdateRetry?) then 1 else 0)
  {
    RowStep(s, op, time, id);
    assert op.Record? ==> (HasKey(s.rows, op.key) <==> !forall n :: n in s.rows ==> s.rows[n].key != op.key);
  }

  /** A number is used for each insertion, and only once. */
  lemma NumberUsed(s: Ledger, e: Event, s': Ledger, id: nat)
    requires Inv(s) && Follows(s, e, s')
    ensures s'.nextId == if Inserts(s, e.op, s.nextId) then s.nextId + 1 else s.nextId
    ensures Inserts(s, e.op, id) ==> id < s'.nextId
  {
    assert e.op.Record? ==> (HasKey(s.rows, e.op.key) <==> !forall n :: n in s.rows ==> s.rows[n].key != e.op.key);
  }

  // ----- claims and resolutions -----

  /** A claimed row is claimed again only after something else was written to it. */
  lemma NotClaimedTwice(states: seq<Ledger>, events: seq<Event>, i: nat, k: nat, id: nat)
    requires Run(states, events) && i < k < |events| && events[i].op.Claim? && events[k].op.Claim?
    requires TouchedAt(states, events, i, id) && TouchedAt(states, events, k, id)
    ensures !Quiet(states, events, i + 1, k, id)
  {
    if Quiet(states, events, i + 1, k, id) {
      QuietKeeps(states, events, i + 1, k, id);
      StepAt(states, events, i, id);
    }
  }

  /** A resolved row stays resolved until another failure is reported for it, or a caller that expects it resolved takes it up. */
  lemma ResolvedUntil(states: seq<Ledger>, events: seq<Event>, i: nat, id: nat)
    requires Run(states, events) && i < |events| && id in states[i].rows && states[i].rows[id].status.Resolved? && id in states[i + 1].rows
    ensures states[i + 1].rows[id].status.Resolved? <==>
              !(var op := events[i].op;
                || (op.Record? && op.key == states[i].rows[id].key)
                || ((op.MarkStale? || op.ReleaseRetry?) && op.id == id && op.expected.Resolved?)
                || (op.UpdateRetry? && op.id == id && op.expected.Resolved? && !Blocked(states[i].rows, id, op.source)))
  {
    InvAlways(states, events, i);
    StepAt(states, events, i, id);
  }

  function Ids(ids: seq<nat>): set<nat> {
    set n | n in ids
  }

  /** Position `k` is the first place of its id, and fewer than the limit of different ids stand before it. */
  predicate Admitted(ids: seq<nat>, limit: int, k: nat)
    requires k < |ids|
  {
    ids[k] !in ids[..k] && (|Ids(ids[..k])| < limit || k == 0)
  }

  /** A claim asks for the first distinct ids, as many as the limit says, and for at least one. */
  lemma RequestedIff(ids: seq<nat>, limit: int, n: nat)
    ensures n in Requested(ids, limit) <==> exists k: nat :: k < |ids| && ids[k] == n && Admitted(ids, limit, k)
  {
    var distinct, count := Distinct(ids), if limit > 1 then limit else 1;
    if n in Requested(ids, limit) {
      var asked := if count < |distinct| then distinct[..count] else distinct;
      var p :| 0 <= p < |asked| && asked[p] == n;
      assert distinct[p] == n;
      var k := FirstPlace(ids, n);
      assert distinct[|Distinct(ids[..k])|] == n;
      assert Admitted(ids, limit, k);
    }
    if k: nat :| k < |ids| && ids[k] == n && Admitted(ids, limit, k) {
      DistinctGrows(ids, k);
      DistinctCounts(ids[..k]);
      var p := |Distinct(ids[..k])|;
      assert distinct[p] == n && p < count;
    }
  }

  lemma {:induction false} FirstPlace(ids: seq<nat>, n: nat) returns (k: nat)
    requires n in ids
    ensures k < |ids| && ids[k] == n && n !in ids[..k]
    ensures |Distinct(ids[..k])| < |Distinct(ids)| && Distinct(ids)[|Distinct(ids[..k])|] == n
    ensures |Distinct(ids[..k])| == |Ids(ids[..k])| && (k == 0 <==> Distinct(ids[..k]) == [])
  {
    k :| 0 <= k < |ids| && ids[k] == n && n !in ids[..k] by {
      FirstExists(ids, n);
    }
    DistinctGrows(ids, k);
    DistinctCounts(ids[..k]);
    if k > 0 {
      assert ids[..k][0] in Distinct(ids[..k]);
    }
  }

  lemma {:induction false} FirstExists(ids: seq<nat>, n: nat)
    requires n in ids
    ensures exists k :: 0 <= k < |ids| && ids[k] == n && n !in ids[..k]
  {
    var last := |ids| - 1;
    if n in ids[..last] {
      FirstExists(ids[..last], n);
      var k :| 0 <= k < last && ids[..last][k] == n && n !in ids[..last][..k];
      assert ids[..last][..k] == ids[..k] && ids[k] == n;
    } else {
      assert ids == ids[..last] + [ids[last]];
      assert ids[last] == n;
    }
  }

  /** The first place of an id is its place among the distinct ones. */
  lemma {:induction false} DistinctGrows(ids: seq<nat>, k: nat)
    requires k < |ids| && ids[k] !in ids[..k]
    ensures Distinct(ids[..k]) + [ids[k]] <= Distinct(ids)
  {
    var last := |ids| - 1;
    assert ids == ids[..last] + [ids[last]];
    if k < last {
      assert ids[..last][..k] == ids[..k];
      DistinctGrows(ids[..last], k);
    }
  }

  lemma {:induction false} DistinctCounts(ids: seq<nat>)
    ensures |Distinct(ids)| == |Ids(ids)|
  {
    if ids != [] {
      var last := |ids| - 1;
      assert ids == ids[..last] + [ids[last]];
      DistinctCounts(ids[..last]);
      assert Ids(ids) == Ids(ids[..last]) + {ids[last]};
      assert ids[last] in Distinct(ids[..last]) <==> ids[last] in Ids(ids[..last]);
    }
  }
}
