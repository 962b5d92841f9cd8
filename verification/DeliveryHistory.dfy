/**
 * What a row of the delivery outbox owes to the history of the outbox: which
 * call last wrote it, when it may be granted, and which lease covers it.
 */
module DeliveryHistory {
  import opened DeliveryOutbox

  // ----- what a call does to one row -----

  /** The call writes the row of `t`. */
  predicate Touches(rows: Rows, op: Op, t: string) {
    match op
    case Enqueue(token) => token == t
    case Grant(chosen, _, _) => t in rows && chosen.Some? && chosen.value == t
    case Complete(token, lease) => token == t && t in rows && rows[t].status.Sending? && rows[t].lease == lease
    case Retry(token, lease, _) => token == t && t in rows && rows[t].status.Sending? && rows[t].lease == lease
    case Recover => t in rows && rows[t].status.Sending?
  }

  /** What it makes of a row that was there. */
  predicate Writes(d: Delivery, op: Op, time: int, d': Delivery) {
    match op
    case Enqueue(_) => d' == Delivery(d.id, Pending, 0, d.lease + 1, time, time)
    case Grant(_, _, _) => d' == Delivery(d.id, Sending, d.attempts, d.lease + 1, d.nextAttemptAt, time)
    case Complete(_, _) => d' == Delivery(d.id, Sent, d.attempts, d.lease, d.nextAttemptAt, time)
    case Retry(_, _, at) => d' == Delivery(d.id, RetryWait, d.attempts + 1, d.lease, at, time)
    case Recover => d' == Delivery(d.id, RetryWait, d.attempts, d.lease + 1, time, time)
  }

  lemma RowStep(w: World, op: Op, time: int, t: string)
    requires Enabled(w, op, time)
    ensures var rows' := Apply(w, op, time).rows;
            && (t in rows' <==> t in w.rows || op == Enqueue(t))
            && (t in w.rows && Touches(w.rows, op, t) ==> Writes(w.rows[t], op, time, rows'[t]))
            && (t in w.rows && !Touches(w.rows, op, t) ==> rows'[t] == w.rows[t])
            && (t !in w.rows && op == Enqueue(t) ==> rows'[t] == Delivery(w.nextId, Pending, 0, 0, time, time))
  {
  }

  ghost predicate TouchedAt(states: seq<World>, events: seq<Event>, i: nat, t: string)
    requires |states| == |events| + 1 && i < |events|
  {
    Touches(states[i].rows, events[i].op, t)
  }

  /** No call from `i` on, before `j`, writes the row. */
  ghost predicate Quiet(states: seq<World>, events: seq<Event>, i: nat, j: nat, t: string)
    requires |states| == |events| + 1 && j <= |events|
  {
    forall k: nat :: i <= k < j ==> !TouchedAt(states, events, k, t)
  }

  lemma {:induction false} QuietKeeps(states: seq<World>, events: seq<Event>, i: nat, j: nat, t: string)
    requires Run(states, events) && i <= j <= |events| && Quiet(states, events, i, j, t)
    ensures t in states[j].rows <==> t in states[i].rows
    ensures t in states[i].rows ==> states[j].rows[t] == states[i].rows[t]
  {
    if i < j {
      QuietKeeps(states, events, i, j - 1, t);
      assert Follows(states[j - 1], events[j - 1], states[j]);
      assert !TouchedAt(states, events, j - 1, t);
      RowStep(states[j - 1], events[j - 1].op, events[j - 1].time, t);
    }
  }

  /** The row is as the last call that wrote it left it: that call inserted it, or made of it what such a call makes. */
  lemma {:induction false} WrittenBy(states: seq<World>, events: seq<Event>, j: nat, t: string) returns (i: nat)
    requires Run(states, events) && j <= |events| && t in states[j].rows
    ensures i < j && TouchedAt(states, events, i, t) && Quiet(states, events, i + 1, j, t)
    ensures t in states[i].rows ==> Writes(states[i].rows[t], events[i].op, events[i].time, states[j].rows[t])
    ensures t !in states[i].rows ==>
              events[i].op == Enqueue(t) && states[j].rows[t] == Delivery(states[i].nextId, Pending, 0, 0, events[i].time, events[i].time)
  {
    assert j > 0;
    assert Follows(states[j - 1], events[j - 1], states[j]);
    RowStep(states[j - 1], events[j - 1].op, events[j - 1].time, t);
    if TouchedAt(states, events, j - 1, t) {
      i := j - 1;
    } else {
      i := WrittenBy(states, events, j - 1, t);
    }
  }

  // ----- grants -----

  /** The row may be granted: it waits for an attempt that is due, or was being sent by somebody silent since `staleBefore`. */
  predicate Ready(d: Delivery, time: int, staleBefore: int) {
    match d.status
    case Pending => d.nextAttemptAt <= time
    case RetryWait => d.nextAttemptAt <= time
    case Sending => d.updatedAt <= staleBefore
    case Sent => false
  }

  /** A worker gets the row that has been due longest, the older one of two, and goes away only if no row is ready. */
  lemma GrantedFirst(states: seq<World>, events: seq<Event>, i: nat, t: string)
    requires Run(states, events) && i < |events| && events[i].op.Grant? && t in states[i].rows
    requires Ready(states[i].rows[t], events[i].time, events[i].op.staleBefore)
    requires events[i].op.wanted.None? || events[i].op.wanted.value == t
    ensures events[i].op.chosen.Some? && events[i].op.chosen.value in states[i].rows
    ensures var (c, d) := (states[i].rows[events[i].op.chosen.value], states[i].rows[t]);
            && Ready(c, events[i].time, events[i].op.staleBefore)
            && (c.nextAttemptAt < d.nextAttemptAt || (c.nextAttemptAt == d.nextAttemptAt && c.id <= d.id))
  {
    assert Follows(states[i], events[i], states[i + 1]);
    assert Due(states[i].rows[t], events[i].time, events[i].op.staleBefore) && Wanted(t, events[i].op.wanted);
  }

  lemma GrantedReady(states: seq<World>, events: seq<Event>, i: nat, t: string)
    requires Run(states, events) && i < |events| && Grants(events[i], t)
    ensures t in states[i].rows && Ready(states[i].rows[t], events[i].time, events[i].op.staleBefore)
    ensures events[i].op.wanted.Some? ==> events[i].op.wanted.value == t
  {
    assert Follows(states[i], events[i], states[i + 1]);
  }

  /**
   * A granted delivery is not given to a second worker while the first is at it:
   * the next grant comes after a settlement, a recovery or a new enqueueing, or
   * takes the first worker for lost.
   */
  lemma NotGrantedTwice(states: seq<World>, events: seq<Event>, i: nat, k: nat, t: string)
    requires Run(states, events) && i < k < |events| && Grants(events[i], t) && Grants(events[k], t)
    requires Quiet(states, events, i + 1, k, t)
    ensures events[i].time <= events[k].op.staleBefore
  {
    GrantedReady(states, events, i, t);
    GrantedReady(states, events, k, t);
    assert Follows(states[i], events[i], states[i + 1]);
    RowStep(states[i], events[i].op, events[i].time, t);
    QuietKeeps(states, events, i + 1, k, t);
  }

  /** A delivery is attempted again no earlier than its failed attempt asked for. */
  lemma RetriedInTime(states: seq<World>, events: seq<Event>, i: nat, k: nat, t: string)
    requires Run(states, events) && i < k < |events| && Grants(events[k], t)
    requires events[i].op.Retry? && TouchedAt(states, events, i, t) && Quiet(states, events, i + 1, k, t)
    ensures events[i].op.nextAttemptAt <= events[k].time
  {
    GrantedReady(states, events, k, t);
    assert Follows(states[i], events[i], states[i + 1]);
    RowStep(states[i], events[i].op, events[i].time, t);
    QuietKeeps(states, events, i + 1, k, t);
  }

  /** After a restart, an interrupted delivery is due at once. */
  lemma RecoveredReady(states: seq<World>, events: seq<Event>, i: nat, j: nat, t: string, time: int, staleBefore: int)
    requires Run(states, events) && i < j <= |events| && events[i].op.Recover? && TouchedAt(states, events, i, t)
    requires Quiet(states, events, i + 1, j, t)
    ensures t in states[j].rows && (Ready(states[j].rows[t], time, staleBefore) <==> events[i].time <= time)
  {
    assert Follows(states[i], events[i], states[i + 1]);
    RowStep(states[i], events[i].op, events[i].time, t);
    QuietKeeps(states, events, i + 1, j, t);
  }

  // ----- leases and attempts -----

  /** The lease was given at `g`, and nobody has written the row since. */
  ghost predicate Covers(states: seq<World>, events: seq<Event>, g: nat, i: nat, t: string, lease: nat)
    requires |states| == |events| + 1 && i <= |events|
  {
    && g < i && Grants(events[g], t) && t in states[g].rows && lease == states[g].rows[t].lease + 1
    && Quiet(states, events, g + 1, i, t)
  }

  /** A worker's settlement is taken if and only if its own grant was the last call that wrote the row. */
  lemma SettlesIff(states: seq<World>, events: seq<Event>, i: nat, t: string, lease: nat)
    requires Run(states, events) && i < |events|
    requires (events[i].op.Complete? || events[i].op.Retry?) && events[i].op.token == t && events[i].op.lease == lease
    ensures Settles(states[i], events[i].op, t, lease) <==> exists g: nat :: Covers(states, events, g, i, t, lease)
    ensures Settles(states[i], events[i].op, t, lease) <==> TouchedAt(states, events, i, t)
  {
    if Settles(states[i], events[i].op, t, lease) {
      var g := WrittenBy(states, events, i, t);
      if Grants(events[g], t) {
        assert Covers(states, events, g, i, t, lease);
      }
    }
    if g: nat :| Covers(states, events, g, i, t, lease) {
      assert Follows(states[g], events[g], states[g + 1]);
      RowStep(states[g], events[g].op, events[g].time, t);
      QuietKeeps(states, events, g + 1, i, t);
    }
  }

  /** Settled retries of the row since it was last enqueued. */
  ghost function Retries(states: seq<World>, events: seq<Event>, j: nat, t: string): nat
    requires |states| == |events| + 1 && j <= |events|
  {
    if j == 0 || events[j - 1].op == Enqueue(t) then 0
    else Retries(states, events, j - 1, t) + if events[j - 1].op.Retry? && TouchedAt(states, events, j - 1, t) then 1 else 0
  }

  lemma {:induction false} AttemptsCounted(states: seq<World>, events: seq<Event>, j: nat, t: string)
    requires Run(states, events) && j <= |events|
    ensures if t in states[j].rows then states[j].rows[t].attempts == Retries(states, events, j, t) else Retries(states, events, j, t) == 0
  {
    if j > 0 {
      AttemptsCounted(states, events, j - 1, t);
      assert Follows(states[j - 1], events[j - 1], states[j]);
      RowStep(states[j - 1], events[j - 1].op, events[j - 1].time, t);
    }
  }

  /** One number is used for each row. */
  lemma {:induction false} NumbersCount(states: seq<World>, events: seq<Event>, j: nat)
    requires Run(states, events) && j <= |events|
    ensures states[j].nextId == |states[j].rows.Keys| + 1
  {
    if j > 0 {
      NumbersCount(states, events, j - 1);
      assert Follows(states[j - 1], events[j - 1], states[j]);
      KeysStep(states[j - 1], events[j - 1].op, events[j - 1].time);
    }
  }

  lemma KeysStep(w: World, op: Op, time: int)
    requires Enabled(w, op, time)
    ensures var w' := Apply(w, op, time);
            if op.Enqueue? then w'.rows.Keys == w.rows.Keys + {op.token} && w'.nextId == if op.token in w.rows then w.nextId else w.nextId + 1
            else w'.rows.Keys == w.rows.Keys && w'.nextId == w.nextId
  {
    assert op.Enqueue? ==> Apply(w, op, time).rows.Keys == w.rows.Keys + {op.token};
    assert !op.Enqueue? ==> Apply(w, op, time).rows.Keys == w.rows.Keys;
  }

  /** Numbers are given out in order and never twice. */
  lemma {:induction false} NumbersUnique(states: seq<World>, events: seq<Event>, j: nat)
    requires Run(states, events) && j <= |events|
    ensures states[j].nextId >= 1 && forall t :: t in states[j].rows ==> 1 <= states[j].rows[t].id < states[j].nextId
    ensures forall t, u :: t in states[j].rows && u in states[j].rows && states[j].rows[t].id == states[j].rows[u].id ==> t == u
  {
    if j > 0 {
      NumbersUnique(states, events, j - 1);
      var (w, e) := (states[j - 1], events[j - 1]);
      assert Follows(w, e, states[j]);
      forall t | t in states[j].rows
        ensures if t in w.rows then states[j].rows[t].id == w.rows[t].id else e.op == Enqueue(t) && states[j].rows[t].id == w.nextId
      {
        RowStep(w, e.op, e.time, t);
      }
      assert states[j].nextId == if e.op.Enqueue? && e.op.token !in w.rows then w.nextId + 1 else w.nextId;
      assert forall t :: t in w.rows ==> states[j].rows[t].id < w.nextId;
    }
  }
}
