/**
 * The leased delivery outbox of app/database.py: a worker is granted a due row
 * under a lease number, and may settle it only while that grant is the latest.
 * Enqueueing and restart recovery are those of
 * app/repositories/telegram_notifications.py.
 */
module DeliveryOutbox {
  import opened Basics

  datatype Status = Pending | Sending | RetryWait | Sent

  datatype Delivery = Delivery(id: nat, status: Status, attempts: nat, lease: nat, nextAttemptAt: int, updatedAt: int)

  /** One row per confirmation token, which the table keeps unique. */
  type Rows = map<string, Delivery>

  datatype Op =
    | Enqueue(token: string)
    | Grant(chosen: Option<string>, staleBefore: int, wanted: Option<string>)
    | Complete(token: string, lease: nat)
    | Retry(token: string, lease: nat, nextAttemptAt: int)
    | Recover

  predicate Due(d: Delivery, time: int, staleBefore: int) {
    || ((d.status.Pending? || d.status.RetryWait?) && d.nextAttemptAt <= time)
    || (d.status.Sending? && d.updatedAt <= staleBefore)
  }

  predicate Wanted(token: string, wanted: Option<string>) {
    wanted.None? || wanted.value == token
  }

  predicate Sooner(a: Delivery, b: Delivery) {
    a.nextAttemptAt < b.nextAttemptAt || (a.nextAttemptAt == b.nextAttemptAt && a.id <= b.id)
  }

  /** `ORDER BY next_attempt_at ASC, id ASC LIMIT 1` over the due rows. */
  ghost predicate IsChosen(rows: Rows, time: int, staleBefore: int, wanted: Option<string>, chosen: Option<string>) {
    match chosen
    case None => forall t :: t in rows && Wanted(t, wanted) ==> !Due(rows[t], time, staleBefore)
    case Some(token) =>
      && token in rows && Wanted(token, wanted) && Due(rows[token], time, staleBefore)
      && forall t :: t in rows && Wanted(t, wanted) && Due(rows[t], time, staleBefore) ==> Sooner(rows[token], rows[t])
  }

  /** The lease still covers the row. */
  predicate Holds(rows: Rows, token: string, lease: nat) {
    token in rows && rows[token].status.Sending? && rows[token].lease == lease
  }

  function Enqueued(rows: Rows, nextId: nat, token: string, time: int): Rows {
    if token in rows then
      rows[token := Delivery(rows[token].id, Pending, 0, rows[token].lease + 1, time, time)]
    else rows[token := Delivery(nextId, Pending, 0, 0, time, time)]
  }

  function Granted(rows: Rows, token: string, time: int): Rows
    requires token in rows
  {
    var d := rows[token];
    rows[token := d.(status := Sending, lease := d.lease + 1, updatedAt := time)]
  }

  function Completed(rows: Rows, token: string, lease: nat, time: int): Rows {
    if Holds(rows, token, lease) then rows[token := rows[token].(status := Sent, updatedAt := time)] else rows
  }

  function Retried(rows: Rows, token: string, lease: nat, nextAttemptAt: int, time: int): Rows {
    if Holds(rows, token, lease) then
      var d := rows[token];
      rows[token := d.(status := RetryWait, attempts := d.attempts + 1, nextAttemptAt := nextAttemptAt, updatedAt := time)]
    else rows
  }

  function Restarted(d: Delivery, time: int): Delivery {
    if d.status.Sending? then d.(status := RetryWait, lease := d.lease + 1, nextAttemptAt := time, updatedAt := time) else d
  }

  class Outbox {
    var rows: Rows
    var nextId: nat

    constructor ()
      ensures rows == map[] && nextId == 1
    {
      rows, nextId := map[], 1;
    }

    method EnqueueDelivery(token: string, time: int)
      modifies this
      ensures rows == Enqueued(old(rows), old(nextId), token, time)
      ensures nextId == if token in old(rows) then old(nextId) else old(nextId) + 1
    {
      if token in rows {
        var d := rows[token];
        rows := rows[token := d.(status := Pending, attempts := 0, lease := d.lease + 1, nextAttemptAt := time, updatedAt := time)];
      } else {
        rows := rows[token := Delivery(nextId, Pending, 0, 0, time, time)];
        nextId := nextId + 1;
      }
    }

    method ClaimDue(time: int, staleBefore: int, wanted: Option<string>) returns (claimed: Option<(string, Delivery)>)
      modifies this
      ensures nextId == old(nextId)
      ensures IsChosen(old(rows), time, staleBefore, wanted, if claimed.Some? then Some(claimed.value.0) else None)
      ensures rows == if claimed.Some? then Granted(old(rows), claimed.value.0, time) else old(rows)
      ensures claimed.Some? ==> claimed.value.1 == rows[claimed.value.0]
    {
      var chosen: Option<string> := None;
      var left := rows.Keys;
      while left != {}
        invariant left <= rows.Keys && rows == old(rows) && nextId == old(nextId)
        invariant chosen.Some? ==> chosen.value in rows && Wanted(chosen.value, wanted) && Due(rows[chosen.value], time, staleBefore)
        invariant forall t :: t in rows.Keys - left && Wanted(t, wanted) && Due(rows[t], time, staleBefore) ==>
                                chosen.Some? && Sooner(rows[chosen.value], rows[t])
        decreases left
      {
        var t :| t in left;
        left := left - {t};
        if Wanted(t, wanted) && Due(rows[t], time, staleBefore) && (chosen.None? || !Sooner(rows[chosen.value], rows[t])) {
          chosen := Some(t);
        }
      }
      if chosen.None? {
        return None;
      }
      var d := rows[chosen.value];
      rows := rows[chosen.value := d.(status := Sending, lease := d.lease + 1, updatedAt := time)];
      claimed := Some((chosen.value, rows[chosen.value]));
    }

    method CompleteDelivery(token: string, lease: nat, sentAt: int) returns (ok: bool)
      modifies this
      ensures nextId == old(nextId) && rows == Completed(old(rows), token, lease, sentAt) && (ok <==> Holds(old(rows), token, lease))
    {
      ok := token in rows && rows[token].status.Sending? && rows[token].lease == lease;
      if ok {
        rows := rows[token := rows[token].(status := Sent, updatedAt := sentAt)];
      }
    }

    method RetryDelivery(token: string, lease: nat, nextAttemptAt: int, time: int) returns (ok: bool)
      modifies this
      ensures nextId == old(nextId) && rows == Retried(old(rows), token, lease, nextAttemptAt, time)
      ensures ok <==> Holds(old(rows), token, lease)
    {
      ok := token in rows && rows[token].status.Sending? && rows[token].lease == lease;
      if ok {
        var d := rows[token];
        rows := rows[token := d.(status := RetryWait, attempts := d.attempts + 1, nextAttemptAt := nextAttemptAt, updatedAt := time)];
      }
    }

    method RecoverAfterRestart(time: int)
      modifies this
      ensures nextId == old(nextId) && rows == map t | t in old(rows) :: Restarted(old(rows)[t], time)
    {
      rows := map t | t in rows :: Restarted(rows[t], time);
    }
  }

  // ----- runs, with a record of grants and settlements -----

  datatype World = World(rows: Rows, nextId: nat, grants: set<(string, nat)>, settled: set<(string, nat)>)

  const EMPTY := World(map[], 1, {}, {})

  ghost predicate Enabled(w: World, op: Op, time: int) {
    op.Grant? ==> IsChosen(w.rows, time, op.staleBefore, op.wanted, op.chosen)
  }

  /** The operation settles the grant of `lease` for `token`. */
  predicate Settles(w: World, op: Op, token: string, lease: nat) {
    (op.Complete? || op.Retry?) && op.token == token && op.lease == lease && Holds(w.rows, token, lease)
  }

  function Settled(w: World, op: Op): set<(string, nat)>
    requires op.Complete? || op.Retry?
  {
    if Holds(w.rows, op.token, op.lease) then w.settled + {(op.token, op.lease)} else w.settled
  }

  function Apply(w: World, op: Op, time: int): World
    requires op.Grant? && op.chosen.Some? ==> op.chosen.value in w.rows
  {
    match op
    case Enqueue(token) =>
      w.(rows := Enqueued(w.rows, w.nextId, token, time), nextId := if token in w.rows then w.nextId else w.nextId + 1)
    case Grant(chosen, _, _) =>
      if chosen.None? then w
      else
        w.(rows := Granted(w.rows, chosen.value, time), grants := w.grants + {(chosen.value, w.rows[chosen.value].lease + 1)})
    case Complete(token, lease) => w.(rows := Completed(w.rows, token, lease, time), settled := Settled(w, op))
    case Retry(token, lease, at) => w.(rows := Retried(w.rows, token, lease, at, time), settled := Settled(w, op))
    case Recover => w.(rows := map t | t in w.rows :: Restarted(w.rows[t], time))
  }

  predicate RowOk(w: World, token: string)
    requires token in w.rows
  {
    var d := w.rows[token];
    // every counted attempt, a pending outcome and a success each used up a lease of their own
    && d.attempts + (if d.status.Sent? || d.status.Sending? then 1 else 0) <= d.lease
    // a row being sent is under a grant that was made and not settled
    && (d.status.Sending? ==> (token, d.lease) in w.grants && (token, d.lease) !in w.settled)
  }

  ghost predicate Inv(w: World) {
    && (forall t :: t in w.rows ==> RowOk(w, t))
    && (forall g :: g in w.grants ==> g.0 in w.rows && g.1 <= w.rows[g.0].lease)
    && w.settled <= w.grants
  }

  lemma InvStep(w: World, op: Op, time: int)
    requires Inv(w) && Enabled(w, op, time)
    ensures Inv(Apply(w, op, time))
  {
    var w' := Apply(w, op, time);
    forall t | t in w'.rows ensures RowOk(w', t) {
      if t in w.rows {
        assert RowOk(w, t);
      }
    }
    if op.Complete? || op.Retry? {
      if Holds(w.rows, op.token, op.lease) {
        assert RowOk(w, op.token);
      }
    }
  }

  datatype Event = Event(op: Op, time: int)

  ghost predicate Follows(w: World, e: Event, w': World) {
    Enabled(w, e.op, e.time) && w' == Apply(w, e.op, e.time)
  }

  ghost predicate Run(states: seq<World>, events: seq<Event>) {
    && |states| == |events| + 1 && states[0] == EMPTY
    && forall i :: 0 <= i < |events| ==> Follows(states[i], events[i], states[i + 1])
  }

  lemma {:induction false} InvAlways(states: seq<World>, events: seq<Event>, i: nat)
    requires Run(states, events) && i <= |events|
    ensures Inv(states[i])
  {
    if i > 0 {
      InvAlways(states, events, i - 1);
      assert Follows(states[i - 1], events[i - 1], states[i]);
      InvStep(states[i - 1], events[i - 1].op, events[i - 1].time);
    }
  }

  /** Records and leases only grow; rows stay. */
  lemma {:induction false} Grows(states: seq<World>, events: seq<Event>, i: nat, j: nat)
    requires Run(states, events) && i <= j <= |events|
    ensures states[i].grants <= states[j].grants && states[i].settled <= states[j].settled
    ensures forall t :: t in states[i].rows ==> t in states[j].rows && states[i].rows[t].lease <= states[j].rows[t].lease
  {
    if i < j {
      Grows(states, events, i, j - 1);
      assert Follows(states[j - 1], events[j - 1], states[j]);
    }
  }

  predicate Grants(e: Event, token: string) {
    e.op.Grant? && e.op.chosen == Some(token)
  }

  /** Attempts, plus one if sent, never exceed the lease number. */
  lemma AttemptsWithinLeases(states: seq<World>, events: seq<Event>, i: nat, t: string)
    requires Run(states, events) && i <= |events| && t in states[i].rows
    ensures states[i].rows[t].attempts + (if states[i].rows[t].status.Sent? then 1 else 0) <= states[i].rows[t].lease
  {
    InvAlways(states, events, i);
    assert RowOk(states[i], t);
  }

  /** Each grant of a row carries a larger lease number than every grant before it. */
  lemma GrantsStrictlyRise(states: seq<World>, events: seq<Event>, i: nat, j: nat, t: string)
    requires Run(states, events) && i < j < |events| && Grants(events[i], t) && Grants(events[j], t)
    ensures t in states[i + 1].rows && t in states[j + 1].rows
    ensures states[i + 1].rows[t].lease < states[j + 1].rows[t].lease
  {
    assert Follows(states[i], events[i], states[i + 1]) && Follows(states[j], events[j], states[j + 1]);
    Grows(states, events, i + 1, j);
  }

  /**
   * Fencing: what settles a grant names a lease that was granted and is still
   * the row's lease, so no later grant, re-enqueue or recovery has happened.
   */
  lemma OnlyLatestGrantSettles(states: seq<World>, events: seq<Event>, i: nat, t: string, lease: nat)
    requires Run(states, events) && i < |events| && Settles(states[i], events[i].op, t, lease)
    ensures (t, lease) in states[i].grants && lease == states[i].rows[t].lease
    ensures forall g :: g in states[i].grants && g.0 == t ==> g.1 <= lease
  {
    InvAlways(states, events, i);
    assert RowOk(states[i], t);
  }

  /** No grant is settled twice. */
  lemma SettledAtMostOnce(states: seq<World>, events: seq<Event>, i: nat, j: nat, t: string, lease: nat)
    requires Run(states, events) && i < |events| && j < |events|
    requires Settles(states[i], events[i].op, t, lease) && Settles(states[j], events[j].op, t, lease)
    ensures i == j
  {
    if i < j {
      SettledEarlier(states, events, i, j, t, lease);
    } else if j < i {
      SettledEarlier(states, events, j, i, t, lease);
    }
  }

  lemma SettledEarlier(states: seq<World>, events: seq<Event>, i: nat, j: nat, t: string, lease: nat)
    requires Run(states, events) && i < j < |events|
    requires Settles(states[i], events[i].op, t, lease)
    ensures !Settles(states[j], events[j].op, t, lease)
  {
    assert Follows(states[i], events[i], states[i + 1]);
    Grows(states, events, i + 1, j);
    InvAlways(states, events, j);
    if t in states[j].rows {
      assert RowOk(states[j], t);
    }
  }

  /** A sent row stays sent, and is never granted again, until it is enqueued anew. */
  lemma {:induction false} SentStaysSent(states: seq<World>, events: seq<Event>, i: nat, j: nat, t: string)
    requires Run(states, events) && i <= j <= |events| && t in states[i].rows && states[i].rows[t].status.Sent?
    requires forall k :: i <= k < j ==> events[k].op != Enqueue(t)
    ensures t in states[j].rows && states[j].rows[t] == states[i].rows[t]
    ensures forall k :: i <= k < j ==> !Grants(events[k], t)
  {
    if i < j {
      SentStaysSent(states, events, i, j - 1, t);
      assert Follows(states[j - 1], events[j - 1], states[j]);
    }
  }
}
