/**
 * The FIFO queue inside the confirmation table: which queued row is next, and
 * the position a row is told. Queue times are those of the claims; a requeued
 * row keeps its own.
 */
module OrganizeQueue {
  import opened Basics
  import opened OrganizeConfirmations

  /** `COALESCE(queued_at, created_at)` */
  function QueueTime(r: Row): int {
    if r.queuedAt.Some? then r.queuedAt.value else r.createdAt
  }

  predicate Precedes(r: Row, target: Row) {
    QueueTime(r) < QueueTime(target) || (QueueTime(r) == QueueTime(target) && r.id < target.id)
  }

  /** What the position query counts: the running row, and every queued row with an earlier place. */
  predicate Counts(r: Row, target: Row) {
    r.id != target.id && (r.status.Running? || (r.status.Queued? && Precedes(r, target)))
  }

  function Counted(rows: Rows, target: Row): set<string> {
    set t | t in rows && Counts(rows[t], target)
  }

  function Position(rows: Rows, token: string): nat
    requires token in rows
  {
    |Counted(rows, rows[token])|
  }

  /** `ORDER BY queue time, id LIMIT 1` over the queued rows. */
  ghost predicate IsNext(rows: Rows, next: Option<string>) {
    match next
    case None => forall t :: t in rows ==> !rows[t].status.Queued?
    case Some(token) =>
      && token in rows && rows[token].status.Queued?
      && forall t :: t in rows && rows[t].status.Queued? && t != token ==> Precedes(rows[token], rows[t])
  }

  predicate Waits(r: Row) {
    r.status.Queued? || r.status.Running?
  }

  /** The clock of claims: strictly later than every queue time in the table. */
  ghost predicate LaterThanAll(rows: Rows, time: int) {
    forall t :: t in rows && rows[t].queuedAt.Some? ==> rows[t].queuedAt.value < time
  }

  /** A start that jumps the queue: the row was queued behind the target. */
  ghost predicate Overtakes(rows: Rows, op: Op, target: Row) {
    && op.Start? && op.token in rows && rows[op.token].status.Queued?
    && rows[op.token].id != target.id && !Precedes(rows[op.token], target)
  }

  /** A row that waits before and after a step keeps its place. */
  lemma PlaceKept(s: Table, op: Op, time: int, token: string)
    requires Inv(s) && Enabled(s, op, time) && token in s.rows && Waits(s.rows[token])
    requires token in Apply(s, op, time).rows && Waits(Apply(s, op, time).rows[token])
    ensures QueueTime(Apply(s, op, time).rows[token]) == QueueTime(s.rows[token])
    ensures Apply(s, op, time).rows[token].id == s.rows[token].id
  {
    assert RowOk(s.rows[token]);
    OtherRowSteps(s.rows[token]);
  }

  /** A row other than the target is newly counted only when it overtakes. */
  lemma NewlyCounted(s: Table, op: Op, time: int, target: Row, t: string)
    requires Inv(s) && Enabled(s, op, time) && Waits(target) && target.queuedAt.Some?
    requires op.Claim? ==> target.queuedAt.value < op.queuedAt
    requires t in Apply(s, op, time).rows && Counts(Apply(s, op, time).rows[t], target)
    ensures t in s.rows
    ensures Counts(s.rows[t], target) || (Overtakes(s.rows, op, target) && op.token == t)
  {
    if t in s.rows {
      assert RowOk(s.rows[t]);
      OtherRowSteps(s.rows[t]);
    }
  }

  /**
   * With strictly increasing queue times, a waiting row's position rises in a
   * step exactly when another row queued behind it is started, and then by one.
   */
  lemma PositionStep(s: Table, op: Op, time: int, token: string)
    requires Inv(s) && Enabled(s, op, time) && (op.Claim? ==> LaterThanAll(s.rows, op.queuedAt))
    requires token in s.rows && Waits(s.rows[token])
    requires token in Apply(s, op, time).rows && Waits(Apply(s, op, time).rows[token])
    ensures var (before, after) := (Position(s.rows, token), Position(Apply(s, op, time).rows, token));
            if Overtakes(s.rows, op, s.rows[token]) then after == before + 1 else after <= before
  {
    var target := s.rows[token];
    var rows' := Apply(s, op, time).rows;
    PlaceKept(s, op, time, token);
    assert RowOk(target);
    var before, after := Counted(s.rows, target), Counted(rows', target);
    SameTarget(rows', target, rows'[token]);
    forall t | t in after ensures t in before || (Overtakes(s.rows, op, target) && op.token == t) {
      NewlyCounted(s, op, time, target, t);
    }
    if Overtakes(s.rows, op, target) {
      StartedCounted(s, op, time, target);
    } else {
      SubsetCard(after, before);
    }
  }

  lemma SameTarget(rows: Rows, a: Row, b: Row)
    requires a.id == b.id && QueueTime(a) == QueueTime(b)
    ensures Counted(rows, a) == Counted(rows, b)
  {
  }

  lemma StartedCounted(s: Table, op: Op, time: int, target: Row)
    requires Inv(s) && Overtakes(s.rows, op, target)
    ensures Counted(Apply(s, op, time).rows, target) == Counted(s.rows, target) + {op.token} && op.token !in Counted(s.rows, target)
  {
  }

  /** The one worker: it starts the row the queue query returned, while nothing else runs. */
  ghost predicate InOrder(s: Table, op: Op) {
    op.Start? && op.token in s.rows && s.rows[op.token].status.Queued? ==>
      IsNext(s.rows, Some(op.token)) && forall t :: t in s.rows ==> !s.rows[t].status.Running?
  }

  lemma InOrderNeverOvertakes(s: Table, op: Op, token: string)
    requires Inv(s) && InOrder(s, op) && token in s.rows && Waits(s.rows[token])
    ensures !Overtakes(s.rows, op, s.rows[token])
  {
  }

  /** A step through which the row keeps waiting. */
  ghost predicate Stays(s: Table, op: Op, s': Table, token: string) {
    && InOrder(s, op) && (op.Claim? ==> LaterThanAll(s.rows, op.queuedAt))
    && token in s.rows && Waits(s.rows[token]) && token in s'.rows && Waits(s'.rows[token])
  }

  ghost predicate StaysAt(states: seq<Table>, events: seq<Event>, k: int, token: string) {
    0 <= k < |events| && k + 1 < |states| && Stays(states[k], events[k].op, states[k + 1], token)
  }

  /** No later than before, and in the same place. */
  ghost predicate NoWorse(s: Table, s': Table, token: string) {
    && token in s.rows && token in s'.rows && Position(s'.rows, token) <= Position(s.rows, token)
    && QueueTime(s'.rows[token]) == QueueTime(s.rows[token])
  }

  lemma StaysStep(s: Table, e: Event, s': Table, token: string)
    requires Inv(s) && Follows(s, e, s') && Stays(s, e.op, s', token)
    ensures NoWorse(s, s', token)
  {
    InOrderNeverOvertakes(s, e.op, token);
    PositionStep(s, e.op, e.time, token);
    PlaceKept(s, e.op, e.time, token);
  }

  lemma NoWorseChain(a: Table, b: Table, c: Table, token: string)
    requires NoWorse(a, b, token) && NoWorse(b, c, token)
    ensures NoWorse(a, c, token)
  {
  }

  /**
   * As long as a confirmation waits, started in order by one worker, its place
   * and time stay its own and its position never rises, through any claims,
   * requeues, releases and completions of the others and requeues of its own.
   */
  lemma {:induction false} PositionNeverRises(states: seq<Table>, events: seq<Event>, i: nat, j: nat, token: string)
    requires Run(states, events) && i <= j <= |events| && token in states[i].rows
    requires forall k :: i <= k < j ==> StaysAt(states, events, k, token)
    ensures NoWorse(states[i], states[j], token)
  {
    if i < j {
      PositionNeverRises(states, events, i, j - 1, token);
      InvAlways(states, events, j - 1);
      assert Follows(states[j - 1], events[j - 1], states[j]);
      assert StaysAt(states, events, j - 1, token);
      StaysStep(states[j - 1], events[j - 1], states[j], token);
      NoWorseChain(states[i], states[j - 1], states[j], token);
    }
  }

  /** Queued earlier, or at the same time with a smaller number. */
  predicate Ahead(r: Row, target: Row) {
    r.queuedAt.Some? && target.queuedAt.Some? &&
    (r.queuedAt.value < target.queuedAt.value || (r.queuedAt.value == target.queuedAt.value && r.id < target.id))
  }

  /** In hand, a row is ordered by the time of its claim. */
  lemma AheadIff(s: Table, a: string, b: string)
    requires Inv(s) && a in s.rows && b in s.rows && Waits(s.rows[a]) && Waits(s.rows[b])
    ensures Precedes(s.rows[a], s.rows[b]) <==> Ahead(s.rows[a], s.rows[b])
  {
    assert RowOk(s.rows[a]) && RowOk(s.rows[b]);
  }

  /** The next row was queued before every other queued row; there is none only if no row is queued. */
  lemma NextIsFirst(s: Table, next: Option<string>)
    requires Inv(s) && IsNext(s.rows, next)
    ensures next.Some? ==> next.value in s.rows && s.rows[next.value].status.Queued?
    ensures forall t :: t in s.rows && s.rows[t].status.Queued? ==> next.Some? && (t == next.value || Ahead(s.rows[next.value], s.rows[t]))
  {
    forall t | t in s.rows && s.rows[t].status.Queued? ensures next.Some? && (t == next.value || Ahead(s.rows[next.value], s.rows[t])) {
      if next.Some? && t != next.value {
        AheadIff(s, next.value, t);
      }
    }
  }

  /** The position of a queued row is the number of other rows that run or are queued ahead of it. */
  lemma PositionCounts(s: Table, token: string)
    requires Inv(s) && token in s.rows && s.rows[token].status.Queued?
    ensures Position(s.rows, token) ==
            |set t | t in s.rows && t != token && (s.rows[t].status.Running? || (s.rows[t].status.Queued? && Ahead(s.rows[t], s.rows[token])))|
  {
    forall t | t in s.rows && (s.rows[t].status.Running? || s.rows[t].status.Queued?)
      ensures Precedes(s.rows[t], s.rows[token]) <==> Ahead(s.rows[t], s.rows[token])
    {
      AheadIff(s, t, token);
    }
    assert Counted(s.rows, s.rows[token]) ==
           set t | t in s.rows && t != token && (s.rows[t].status.Running? || (s.rows[t].status.Queued? && Ahead(s.rows[t], s.rows[token])));
  }

  /** Position zero with nothing running means being next, and conversely. */
  lemma ZeroIffNext(s: Table, token: string)
    requires Inv(s) && token in s.rows && s.rows[token].status.Queued?
    ensures Position(s.rows, token) == 0 <==> IsNext(s.rows, Some(token)) && forall t :: t in s.rows ==> !s.rows[t].status.Running?
  {
    var target := s.rows[token];
    if Position(s.rows, token) == 0 {
      forall t | t in s.rows ensures !Counts(s.rows[t], target) {
        assert t !in Counted(s.rows, target);
      }
    } else {
      var t :| t in Counted(s.rows, target);
      assert Counts(s.rows[t], target);
    }
  }

  function NewRow(id: nat, fingerprint: string): Row {
    Row(id, fingerprint, "", Pending, None, None, 0, 100, NoReview, 0, None, [])
  }

  function QueuedRow(id: nat, fingerprint: string, queuedAt: int): Row {
    NewRow(id, fingerprint).(status := Queued, selected := Some(0), queuedAt := Some(queuedAt), actor := Some(Human), claims := [Human])
  }

  /**
   * Out of order, the promise fails: with two confirmations created and claimed
   * in this order, starting the second takes the first from position 0 to 1.
   */
  lemma OvertakenRises() returns (states: seq<Table>, events: seq<Event>)
    ensures Run(states, events) && |events| == 5 && events[4].op == Start("b")
    ensures "a" in states[4].rows && "a" in states[5].rows && states[4].rows["a"] == states[5].rows["a"]
    ensures Position(states[4].rows, "a") == 0 && Position(states[5].rows, "a") == 1
  {
    var a, b := QueuedRow(1, "f", 10), QueuedRow(2, "g", 20);
    var one := Table(map["a" := NewRow(1, "f")], 2);
    var two := Table(map["a" := NewRow(1, "f"), "b" := NewRow(2, "g")], 3);
    var three := Table(map["a" := a, "b" := NewRow(2, "g")], 3);
    var four := Table(map["a" := a, "b" := b], 3);
    var five := Table(map["a" := a, "b" := b.(status := Running)], 3);
    states := [EMPTY, one, two, three, four, five];
    events := [Event(Create("a", "f", "", 100, false, false), 0), Event(Create("b", "g", "", 100, false, false), 0),
               Event(Claim("a", "", 0, Human, 10), 10), Event(Claim("b", "", 0, Human, 20), 20), Event(Start("b"), 30)];
    Superseding();
    ClaimedRow(1, "f", "a", 10);
    ClaimedRow(2, "g", "b", 20);
    assert Apply(EMPTY, events[0].op, 0) == one;
    assert Apply(one, events[1].op, 0) == two by {
      assert map["a" := NewRow(1, "f")]["b" := NewRow(2, "g")] == two.rows;
    }
    assert Apply(two, events[2].op, 10) == three by {
      assert two.rows["a" := a] == three.rows;
    }
    assert Apply(three, events[3].op, 20) == four by {
      assert three.rows["b" := b] == four.rows;
    }
    assert Apply(four, events[4].op, 30) == five by {
      assert four.rows["b" := b.(status := Running)] == five.rows;
    }
    assert Counted(four.rows, a) == {};
    assert Counted(five.rows, a) == {"b"};
  }

  lemma ClaimedRow(id: nat, fingerprint: string, token: string, time: int)
    requires time < 100
    ensures RowAfter(NewRow(id, fingerprint), Claim(token, "", 0, Human, time), time) == QueuedRow(id, fingerprint, time)
  {
    assert [] + [Human] == [Human];
  }

  lemma Superseding()
    ensures Supersede(map[], "f") == map[] && Supersede(map["a" := NewRow(1, "f")], "g") == map["a" := NewRow(1, "f")]
  {
  }
}
