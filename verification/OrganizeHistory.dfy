/**
 * What a row of the confirmation table owes to the history of the table: each
 * of its columns is what a certain earlier call made it.
 */
module OrganizeHistory {
  import opened Basics
  import opened OrganizeConfirmations

  // ----- claims -----

  /** The event is a claim that won the row. */
  ghost predicate WonAt(states: seq<Table>, events: seq<Event>, i: nat, t: string)
    requires |states| == |events| + 1 && i < |events|
  {
    && events[i].op.Claim? && events[i].op.token == t && t in states[i].rows && t in states[i + 1].rows
    && states[i + 1].rows[t].claims == states[i].rows[t].claims + [events[i].op.actor]
  }

  /** The columns of the choice are those of this claim. */
  predicate Records(r: Row, op: Op)
    requires op.Claim?
  {
    r.selected == Some(op.index) && r.queuedAt == Some(op.queuedAt) && r.actor == Some(op.actor)
  }

  /** A step of the table at one row: it wins the row and records the choice, or keeps the choice, or ends up without one. */
  lemma ChoiceStep(s: Table, op: Op, time: int, t: string)
    requires t in s.rows
    ensures var s' := Apply(s, op, time);
            && t in s'.rows
            && var (r, r') := (s.rows[t], s'.rows[t]);
               || (op.Claim? && op.token == t && r'.claims == r.claims + [op.actor] && Records(r', op))
               || (r'.claims == r.claims && r'.selected == r.selected && r'.queuedAt == r.queuedAt && r'.actor == r.actor)
               || (r'.claims == r.claims && r'.selected.None? && r'.queuedAt.None?)
  {
  }

  lemma NewRowStep(s: Table, op: Op, time: int, t: string)
    requires t !in s.rows && t in Apply(s, op, time).rows
    ensures op.Create? && op.token == t
    ensures Apply(s, op, time).rows[t] ==
            Row(s.nextId, op.fingerprint, op.chat, Pending, None, None, time, op.expiresAt,
                if !op.requested then NoReview else if op.ready then Ready else Waiting, 0, None, [])
  {
  }

  /**
   * As long as a row is in hand (queued, running, completed or failed), the
   * candidate, the queue time and the actor it shows are those of the last claim
   * that won it.
   */
  lemma {:induction false} ChoiceIsLastClaim(states: seq<Table>, events: seq<Event>, j: nat, t: string) returns (i: nat)
    requires Run(states, events) && j <= |events| && t in states[j].rows && InHand(states[j].rows[t].status)
    ensures i < j && WonAt(states, events, i, t) && states[i + 1].rows[t].claims == states[j].rows[t].claims
    ensures Records(states[i + 1].rows[t], events[i].op) && Records(states[j].rows[t], events[i].op)
  {
    InvAlways(states, events, j);
    i := ChoiceRecorded(states, events, j, t);
  }

  lemma {:induction false} ChoiceRecorded(states: seq<Table>, events: seq<Event>, j: nat, t: string) returns (i: nat)
    requires Run(states, events) && j <= |events| && t in states[j].rows && states[j].rows[t].selected.Some?
    ensures i < j && WonAt(states, events, i, t) && states[i + 1].rows[t].claims == states[j].rows[t].claims
    ensures Records(states[i + 1].rows[t], events[i].op) && Records(states[j].rows[t], events[i].op)
  {
    assert j > 0;
    assert Follows(states[j - 1], events[j - 1], states[j]);
    var s, e := states[j - 1], events[j - 1];
    if t !in s.rows {
      NewRowStep(s, e.op, e.time, t);
    }
    ChoiceStep(s, e.op, e.time, t);
    if e.op.Claim? && e.op.token == t && states[j].rows[t].claims == s.rows[t].claims + [e.op.actor] {
      i := j - 1;
    } else {
      i := ChoiceRecorded(states, events, j - 1, t);
    }
  }

  /** A claim wins exactly a waiting, unexpired row of its chat, an agent's claim only while its review is at work. */
  lemma WinsIff(states: seq<Table>, events: seq<Event>, i: nat, t: string)
    requires Run(states, events) && i < |events| && events[i].op.Claim? && events[i].op.token == t && t in states[i].rows
    ensures var (r, op) := (states[i].rows[t], events[i].op);
            WonAt(states, events, i, t) <==>
              r.status.Pending? && events[i].time < r.expiresAt && (r.chat == "" || r.chat == op.chat) && (op.actor.Agent? ==> r.review.Reviewing?)
    ensures WonAt(states, events, i, t) ==> states[i + 1].rows[t].status.Queued? && Records(states[i + 1].rows[t], events[i].op)
  {
    assert Follows(states[i], events[i], states[i + 1]);
    assert states[i].rows[t].claims + [events[i].op.actor] != states[i].rows[t].claims;
  }

  // ----- identity and deadline -----

  predicate CreatedAs(r: Row, e: Event)
    requires e.op.Create?
  {
    r.fingerprint == e.op.fingerprint && r.chat == e.op.chat && r.createdAt == e.time
  }

  lemma IdentityStep(s: Table, op: Op, time: int, t: string)
    requires t in s.rows
    ensures var s' := Apply(s, op, time);
            && t in s'.rows
            && var (r, r') := (s.rows[t], s'.rows[t]);
               && r'.id == r.id && r'.fingerprint == r.fingerprint && r'.chat == r.chat && r'.createdAt == r.createdAt
               && (r'.expiresAt == r.expiresAt || Extends(op, t, r'.expiresAt))
  {
  }

  /** A retryable failure that sets a new deadline. */
  predicate Extends(op: Op, t: string, expiresAt: int) {
    op.Fail? && op.token == t && op.retryable && op.retryExpiresAt == Some(expiresAt)
  }

  /** A row keeps the number, fingerprint, chat and time of its creation. */
  lemma {:induction false} BornOnce(states: seq<Table>, events: seq<Event>, j: nat, t: string) returns (i: nat)
    requires Run(states, events) && j <= |events| && t in states[j].rows
    ensures i < j && events[i].op.Create? && events[i].op.token == t && t !in states[i].rows
    ensures states[j].rows[t].id == states[i].nextId && CreatedAs(states[j].rows[t], events[i])
  {
    assert j > 0;
    assert Follows(states[j - 1], events[j - 1], states[j]);
    if t in states[j - 1].rows {
      i := BornOnce(states, events, j - 1, t);
      IdentityStep(states[j - 1], events[j - 1].op, events[j - 1].time, t);
    } else {
      i := j - 1;
      NewRowStep(states[i], events[i].op, events[i].time, t);
    }
  }

  /** Its deadline is that of its creation, or the one set by the last retryable failure that set one. */
  lemma {:induction false} DeadlineSetBy(states: seq<Table>, events: seq<Event>, j: nat, t: string) returns (i: nat)
    requires Run(states, events) && j <= |events| && t in states[j].rows
    ensures i < j
    ensures || (events[i].op.Create? && events[i].op.token == t && t !in states[i].rows && states[j].rows[t].expiresAt == events[i].op.expiresAt)
            || Extends(events[i].op, t, states[j].rows[t].expiresAt)
  {
    assert j > 0;
    assert Follows(states[j - 1], events[j - 1], states[j]);
    var s, e := states[j - 1], events[j - 1];
    if t !in s.rows {
      i := j - 1;
      NewRowStep(s, e.op, e.time, t);
    } else {
      IdentityStep(s, e.op, e.time, t);
      if states[j].rows[t].expiresAt != s.rows[t].expiresAt {
        i := j - 1;
      } else {
        i := DeadlineSetBy(states, events, j - 1, t);
      }
    }
  }

  // ----- status -----

  /** Why a row has the status it has: the call that gave it, on the row as it was. */
  predicate Gives(op: Op, time: int, t: string, r: Row, status: Status) {
    match status
    case Pending => (op == Release(t, true) && (r.status.Running? || r.status.Queued?)) || (op == Release(t, false) && r.status.Queued?)
                    || (op.Fail? && op.token == t && op.retryable && (r.status.Queued? || r.status.Running?))
    case Queued => (op.Claim? && op.token == t && r.status.Pending? && time < r.expiresAt) || (op == Requeue(t) && r.status.Running?)
    case Running => op == Start(t) && r.status.Queued?
    case Completed => op == Complete(t) && r.status.Running?
    case Failed => op.Fail? && op.token == t && !op.retryable && (r.status.Queued? || r.status.Running?)
    case Expired =>
      && r.status.Pending?
      && ((op.Create? && op.fingerprint == r.fingerprint)
          || ((op == Expire(t) || (op.Cancel? && op.token == t) || (op.Claim? && op.token == t)) && r.expiresAt <= time))
    case Cancelled => op.Cancel? && op.token == t && (r.chat == "" || r.chat == op.chat) && r.status.Pending? && time < r.expiresAt
  }

  lemma StatusStep(s: Table, op: Op, time: int, t: string)
    requires t in s.rows && Enabled(s, op, time)
    ensures var s' := Apply(s, op, time);
            t in s'.rows && (s'.rows[t].status != s.rows[t].status ==> Gives(op, time, t, s.rows[t], s'.rows[t].status))
  {
  }

  /** The status of a row was given by its creation, or by the last call that changed it. */
  lemma {:induction false} StatusGivenBy(states: seq<Table>, events: seq<Event>, j: nat, t: string) returns (i: nat)
    requires Run(states, events) && j <= |events| && t in states[j].rows
    ensures i < j && t in states[i + 1].rows && states[i + 1].rows[t].status == states[j].rows[t].status
    ensures if t in states[i].rows then Gives(events[i].op, events[i].time, t, states[i].rows[t], states[j].rows[t].status)
            else events[i].op.Create? && events[i].op.token == t && states[j].rows[t].status.Pending?
  {
    assert j > 0;
    assert Follows(states[j - 1], events[j - 1], states[j]);
    var s, e := states[j - 1], events[j - 1];
    if t !in s.rows {
      i := j - 1;
      NewRowStep(s, e.op, e.time, t);
    } else {
      StatusStep(s, e.op, e.time, t);
      if states[j].rows[t].status != s.rows[t].status {
        i := j - 1;
      } else {
        i := StatusGivenBy(states, events, j - 1, t);
      }
    }
  }

  /** And a call takes effect whenever it can: what each call makes of a row that is ready for it. */
  lemma TakesEffect(states: seq<Table>, events: seq<Event>, i: nat, t: string)
    requires Run(states, events) && i < |events| && t in states[i].rows
    ensures t in states[i + 1].rows
    ensures var (op, r, status) := (events[i].op, states[i].rows[t], states[i + 1].rows[t].status);
            && (op == Start(t) && r.status.Queued? ==> status.Running?)
            && (op == Requeue(t) && r.status.Running? ==> status.Queued? && states[i + 1].rows[t] == r.(status := Queued))
            && (op == Complete(t) && r.status.Running? ==> status.Completed?)
            && (op.Release? && op.token == t && (r.status.Queued? || (op.running && r.status.Running?)) ==> status.Pending?)
            && (op.Fail? && op.token == t && (r.status.Queued? || r.status.Running?) ==> status == if op.retryable then Pending else Failed)
            && (op.Cancel? && op.token == t && r.status.Pending? && (r.chat == "" || r.chat == op.chat) ==>
                  status == if events[i].time < r.expiresAt then Cancelled else Expired)
            && (op == Expire(t) && r.status.Pending? && r.expiresAt <= events[i].time ==> status.Expired?)
            && (op.Claim? && op.token == t && r.status.Pending? && (r.chat == "" || r.chat == op.chat) && r.expiresAt <= events[i].time ==> status.Expired?)
            && (op.Create? && op.token !in states[i].rows && op.fingerprint == r.fingerprint && r.status.Pending? ==> status.Expired?)
            && (op.Fail? && op.token == t && op.retryable && (r.status.Queued? || r.status.Running?) && op.retryExpiresAt.Some? ==>
                  states[i + 1].rows[t].expiresAt == op.retryExpiresAt.value)
  {
    assert Follows(states[i], events[i], states[i + 1]);
  }

  // ----- reviews -----

  function Reviews(events: seq<Event>, j: nat, t: string): nat
    requires j <= |events|
  {
    if j == 0 then 0 else Reviews(events, j - 1, t) + (if events[j - 1].op == ClaimReview(Some(t)) then 1 else 0)
  }

  lemma AttemptsStep(s: Table, op: Op, time: int, t: string)
    requires t in s.rows
    ensures t in Apply(s, op, time).rows
    ensures Apply(s, op, time).rows[t].attempts == s.rows[t].attempts + (if op == ClaimReview(Some(t)) then 1 else 0)
  {
  }

  /** Attempts are exactly the reviews begun for the row. */
  lemma {:induction false} AttemptsCounted(states: seq<Table>, events: seq<Event>, j: nat, t: string)
    requires Run(states, events) && j <= |events|
    ensures if t in states[j].rows then states[j].rows[t].attempts == Reviews(events, j, t) else Reviews(events, j, t) == 0
  {
    if j > 0 {
      AttemptsCounted(states, events, j - 1, t);
      assert Follows(states[j - 1], events[j - 1], states[j]);
      var s, e := states[j - 1], events[j - 1];
      if t in s.rows {
        AttemptsStep(s, e.op, e.time, t);
      } else if t in states[j].rows {
        NewRowStep(s, e.op, e.time, t);
      }
    }
  }

  /** Why the review of a row is where it is. */
  predicate Reviewed(op: Op, time: int, t: string, r: Row, review: Review) {
    match review
    case Ready => (op == Activate(t) && r.review.Waiting? && r.status.Pending? && time < r.expiresAt)
                  || (op.RecoverReviews? && r.review.Reviewing? && r.attempts < 3)
    case Reviewing => op == ClaimReview(Some(t)) && r.review.Ready? && r.status.Pending? && time < r.expiresAt && r.attempts < 3
    case Approved => (op == CompleteReview(t, Approved) && r.review.Reviewing?) || (op.Claim? && op.token == t && op.actor.Agent? && r.review.Reviewing?)
    case Abstained => op == CompleteReview(t, Abstained) && r.review.Reviewing?
    case ReviewFailed => (op == CompleteReview(t, ReviewFailed) && r.review.Reviewing?) || (op.RecoverReviews? && r.review.Reviewing? && r.attempts >= 3)
    case ReviewCancelled => r.review.Waiting? || r.review.Ready? || r.review.Reviewing?
    case _ => false
  }

  lemma ReviewStep(s: Table, op: Op, time: int, t: string)
    requires t in s.rows && Enabled(s, op, time)
    ensures var s' := Apply(s, op, time);
            t in s'.rows && (s'.rows[t].review != s.rows[t].review ==> Reviewed(op, time, t, s.rows[t], s'.rows[t].review))
  {
  }

  /** The review of a row is as its creation asked for, or as the last call that moved it left it. */
  lemma {:induction false} ReviewGivenBy(states: seq<Table>, events: seq<Event>, j: nat, t: string) returns (i: nat)
    requires Run(states, events) && j <= |events| && t in states[j].rows
    ensures i < j && t in states[i + 1].rows && states[i + 1].rows[t].review == states[j].rows[t].review
    ensures if t in states[i].rows then Reviewed(events[i].op, events[i].time, t, states[i].rows[t], states[j].rows[t].review)
            else events[i].op.Create? && events[i].op.token == t &&
                 states[j].rows[t].review == if !events[i].op.requested then NoReview else if events[i].op.ready then Ready else Waiting
  {
    assert j > 0;
    assert Follows(states[j - 1], events[j - 1], states[j]);
    var s, e := states[j - 1], events[j - 1];
    if t !in s.rows {
      i := j - 1;
      NewRowStep(s, e.op, e.time, t);
    } else {
      ReviewStep(s, e.op, e.time, t);
      if states[j].rows[t].review != s.rows[t].review {
        i := j - 1;
      } else {
        i := ReviewGivenBy(states, events, j - 1, t);
      }
    }
  }

  /** And each call moves the review of a row that is ready for it; leaving the waiting state closes an open review. */
  lemma ReviewMoves(states: seq<Table>, events: seq<Event>, i: nat, t: string)
    requires Run(states, events) && i < |events| && t in states[i].rows
    ensures t in states[i + 1].rows
    ensures var (op, r, review) := (events[i].op, states[i].rows[t], states[i + 1].rows[t].review);
            && (op == Activate(t) && r.review.Waiting? && r.status.Pending? && events[i].time < r.expiresAt ==> review.Ready?)
            && (op == ClaimReview(Some(t)) ==> review.Reviewing?)
            && (op.CompleteReview? && op.token == t && r.review.Reviewing? && op.verdict.Approved? ==> review.Approved?)
            && (op.CompleteReview? && op.token == t && r.review.Reviewing? && op.verdict.Abstained? ==> review.Abstained?)
            && (op.CompleteReview? && op.token == t && r.review.Reviewing? && op.verdict.ReviewFailed? ==> review.ReviewFailed?)
            && (op.CompleteReview? && op.token == t && r.review.Reviewing? && op.verdict.ReviewCancelled? ==> review.ReviewCancelled?)
            && (op.RecoverReviews? && r.review.Reviewing? ==> review == if r.attempts < 3 then Ready else ReviewFailed)
            && (WonAt(states, events, i, t) && op.actor.Agent? ==> review.Approved?)
  {
    InvAlways(states, events, i);
    assert Follows(states[i], events[i], states[i + 1]);
  }

  /** A review that can begin. */
  predicate CanBegin(r: Row, time: int) {
    r.status.Pending? && r.review.Ready? && time < r.expiresAt && r.attempts < 3
  }

  /** The next review is the one with the smallest number of those that can begin, and there is none only if none can. */
  lemma NextReviewFirst(states: seq<Table>, events: seq<Event>, i: nat)
    requires Run(states, events) && i < |events| && events[i].op.ClaimReview?
    ensures var (rows, chosen) := (states[i].rows, events[i].op.chosen);
            && (chosen.Some? ==> chosen.value in rows && CanBegin(rows[chosen.value], events[i].time))
            && (forall t :: t in rows && CanBegin(rows[t], events[i].time) ==> chosen.Some? && rows[chosen.value].id <= rows[t].id)
  {
    assert Follows(states[i], events[i], states[i + 1]);
    assert MAX_ATTEMPTS == 3;
    var (rows, chosen) := (states[i].rows, events[i].op.chosen);
    forall t | t in rows && CanBegin(rows[t], events[i].time) ensures chosen.Some? && rows[chosen.value].id <= rows[t].id {
      assert ReviewDue(rows[t], events[i].time);
    }
  }
}
