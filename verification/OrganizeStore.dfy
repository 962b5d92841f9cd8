/**
 * The confirmation functions of app/database.py as transactions on a table
 * that they update in place. Each is proved to make exactly the step that
 * OrganizeConfirmations describes and to report what happened.
 */
module OrganizeStore {
  import opened Basics
  import opened OrganizeConfirmations
  import opened OrganizeQueue

  /** What a caller learns: the row as claimed or cancelled, or the error raised. */
  datatype Outcome = Unknown | AlreadyHandled | TooLate | Done(row: Row)

  class ConfirmationTable {
    var rows: Rows
    var nextId: nat

    ghost function View(): Table
      reads this
    {
      Table(rows, nextId)
    }

    constructor ()
      ensures View() == EMPTY
    {
      rows, nextId := map[], 1;
    }

    /** `None` when the token is taken: the unique column rolls the whole transaction back. */
    method CreateConfirmation(token: string, fingerprint: string, chat: string, expiresAt: int, requested: bool, ready: bool, time: int)
      returns (id: Option<nat>)
      modifies this
      ensures View() == Apply(old(View()), Create(token, fingerprint, chat, expiresAt, requested, ready), time)
      ensures id == if token in old(rows) then None else Some(old(nextId))
    {
      if token in rows {
        return None;
      }
      rows := Supersede(rows, fingerprint);
      var review := if requested then (if ready then Ready else Waiting) else NoReview;
      rows := rows[token := Row(nextId, fingerprint, chat, Pending, None, None, time, expiresAt, review, 0, None, [])];
      id := Some(nextId);
      nextId := nextId + 1;
    }

    method ActivateReview(token: string, time: int) returns (changed: bool)
      modifies this
      ensures View() == Apply(old(View()), Activate(token), time) && (changed <==> View() != old(View()))
    {
      changed := token in rows && rows[token].status.Pending? && rows[token].review.Waiting? && rows[token].expiresAt > time;
      if changed {
        rows := rows[token := rows[token].(review := Ready)];
        assert old(rows)[token].review != rows[token].review;
      } else if token in rows {
        assert rows == rows[token := rows[token]];
      }
    }

    /** Two updates in one transaction: exhausted reviews fail, the others wait again. */
    method RecoverInterruptedReviews(time: int)
      modifies this
      ensures View() == Apply(old(View()), RecoverReviews, time)
    {
      rows := map t | t in rows ::
        if rows[t].review.Reviewing? && rows[t].status.Pending? && rows[t].attempts >= MAX_ATTEMPTS
        then rows[t].(review := ReviewFailed) else rows[t];
      rows := map t | t in rows ::
        if rows[t].review.Reviewing? && rows[t].status.Pending? && rows[t].attempts < MAX_ATTEMPTS
        then rows[t].(review := Ready) else rows[t];
    }

    method ClaimNextReview(time: int) returns (chosen: Option<string>)
      modifies this
      ensures IsNextReview(old(rows), time, chosen) && View() == Apply(old(View()), ClaimReview(chosen), time)
    {
      chosen := None;
      var left := rows.Keys;
      while left != {}
        invariant left <= rows.Keys && rows == old(rows) && nextId == old(nextId)
        invariant chosen.Some? ==> chosen.value in rows && ReviewDue(rows[chosen.value], time)
        invariant forall t :: t in rows.Keys - left && ReviewDue(rows[t], time) ==> chosen.Some? && rows[chosen.value].id <= rows[t].id
        decreases left
      {
        var t :| t in left;
        left := left - {t};
        if ReviewDue(rows[t], time) && (chosen.None? || rows[t].id < rows[chosen.value].id) {
          chosen := Some(t);
        }
      }
      if chosen.Some? {
        var row := rows[chosen.value];
        rows := rows[chosen.value := row.(review := Reviewing, attempts := row.attempts + 1)];
      }
    }

    /** `false` for a wrong verdict, which the source refuses with an error, as well as for a review not at work. */
    method CompleteReview(token: string, verdict: Review, time: int) returns (changed: bool)
      modifies this
      ensures View() == Apply(old(View()), OrganizeConfirmations.CompleteReview(token, verdict), time)
      ensures changed <==> token in old(rows) && old(rows)[token].review.Reviewing? && IsVerdict(verdict)
    {
      changed := IsVerdict(verdict) && token in rows && rows[token].review.Reviewing?;
      if changed {
        rows := rows[token := rows[token].(review := verdict)];
      } else if token in rows {
        assert rows == rows[token := rows[token]];
      }
    }

    method Claim(token: string, chat: string, index: int, actor: Actor, queuedAt: int, time: int) returns (outcome: Outcome)
      modifies this
      ensures View() == Apply(old(View()), OrganizeConfirmations.Claim(token, chat, index, actor, queuedAt), time)
      ensures outcome.Done? <==> token in rows && token in old(rows) && rows[token].claims != old(rows)[token].claims
      ensures outcome.Done? ==> outcome.row == rows[token]
      ensures outcome.Unknown? <==> token !in old(rows) || (old(rows)[token].chat != "" && old(rows)[token].chat != chat)
      ensures outcome.TooLate? <==> token in rows && token in old(rows) && old(rows)[token].status.Pending? && rows[token].status.Expired?
    {
      if token !in rows {
        return Unknown;
      }
      var row := rows[token];
      assert rows == rows[token := row];
      if row.chat != "" && row.chat != chat {
        return Unknown;
      }
      if !row.status.Pending? {
        return AlreadyHandled;
      }
      if row.expiresAt <= time {
        rows := rows[token := row.(status := Expired, selected := None, queuedAt := None, review := Closed(row.review))];
        return TooLate;
      }
      if actor.Agent? && !row.review.Reviewing? {
        return AlreadyHandled;
      }
      var review := if actor.Agent? then Approved else if IsOpen(row.review) then ReviewCancelled else row.review;
      rows := rows[token := row.(status := Queued, selected := Some(index), queuedAt := Some(queuedAt), actor := Some(actor),
                                 review := review, claims := row.claims + [actor])];
      outcome := Done(rows[token]);
    }

    method Cancel(token: string, chat: string, time: int) returns (outcome: Outcome)
      modifies this
      ensures View() == Apply(old(View()), OrganizeConfirmations.Cancel(token, chat), time)
      ensures outcome.Done? <==> token in rows && token in old(rows) && old(rows)[token].status.Pending? && rows[token].status.Cancelled?
      ensures outcome.Done? ==> outcome.row == rows[token]
      ensures outcome.Unknown? <==> token !in old(rows) || (old(rows)[token].chat != "" && old(rows)[token].chat != chat)
      ensures outcome.TooLate? <==> token in rows && token in old(rows) && old(rows)[token].status.Pending? && rows[token].status.Expired?
    {
      if token !in rows {
        return Unknown;
      }
      var row := rows[token];
      assert rows == rows[token := row];
      if row.chat != "" && row.chat != chat {
        return Unknown;
      }
      if !row.status.Pending? {
        return AlreadyHandled;
      }
      var late := row.expiresAt <= time;
      rows := rows[token := row.(status := if late then Expired else Cancelled, selected := None, queuedAt := None,
                                 review := Closed(row.review))];
      outcome := if late then TooLate else Done(rows[token]);
    }

    method ExpireDue(token: string, time: int) returns (changed: bool)
      modifies this
      ensures View() == Apply(old(View()), Expire(token), time)
      ensures changed <==> token in old(rows) && old(rows)[token].status.Pending? && old(rows)[token].expiresAt <= time
    {
      changed := token in rows && rows[token].status.Pending? && rows[token].expiresAt <= time;
      if changed {
        rows := rows[token := Ended(rows[token], Expired)];
      } else if token in rows {
        assert rows == rows[token := rows[token]];
      }
    }

    /** The row the worker starts next. */
    method GetNextQueued() returns (next: Option<string>)
      requires Inv(View())
      ensures IsNext(rows, next)
    {
      next := None;
      var left := rows.Keys;
      while left != {}
        invariant left <= rows.Keys
        invariant next.Some? ==> next.value in rows.Keys - left && rows[next.value].status.Queued?
        invariant forall t :: t in rows.Keys - left && rows[t].status.Queued? ==>
                                next.Some? && (t != next.value ==> Precedes(rows[next.value], rows[t]))
        decreases left
      {
        var t :| t in left;
        left := left - {t};
        if rows[t].status.Queued? && (next.None? || Precedes(rows[t], rows[next.value])) {
          next := Some(t);
        }
      }
    }

    /** `SELECT COUNT(*)` over the rows in front, zero for an unknown row. */
    method QueuePosition(token: string) returns (position: nat)
      ensures position == if token in rows then Position(rows, token) else 0
    {
      if token !in rows {
        return 0;
      }
      var target := rows[token];
      position := 0;
      var left := rows.Keys;
      ghost var seen: set<string> := {};
      while left != {}
        invariant left <= rows.Keys && position == |seen|
        invariant seen == set t | t in rows && t !in left && Counts(rows[t], target)
        decreases left
      {
        var t :| t in left;
        left := left - {t};
        if rows[t].id != target.id && (rows[t].status.Running? || (rows[t].status.Queued? && Precedes(rows[t], target))) {
          position := position + 1;
          seen := seen + {t};
        }
      }
      assert seen == Counted(rows, target);
    }

    method ClaimQueued(token: string, time: int) returns (started: bool)
      modifies this
      ensures View() == Apply(old(View()), Start(token), time)
      ensures started <==> token in old(rows) && old(rows)[token].status.Queued?
    {
      started := token in rows && rows[token].status.Queued?;
      if started {
        rows := rows[token := rows[token].(status := Running)];
      } else if token in rows {
        assert rows == rows[token := rows[token]];
      }
    }

    method RequeueConfirmation(token: string, time: int)
      modifies this
      ensures View() == Apply(old(View()), Requeue(token), time)
    {
      if token in rows {
        assert rows == rows[token := rows[token]];
        if rows[token].status.Running? {
          rows := rows[token := rows[token].(status := Queued)];
        }
      }
    }

    method ReleaseConfirmation(token: string, includeRunning: bool, time: int)
      modifies this
      ensures View() == Apply(old(View()), Release(token, includeRunning), time)
    {
      if token in rows {
        assert rows == rows[token := rows[token]];
        if rows[token].status.Queued? || (includeRunning && rows[token].status.Running?) {
          rows := rows[token := rows[token].(status := Pending, selected := None, queuedAt := None)];
        }
      }
    }

    method CompleteConfirmation(token: string, time: int) returns (ok: bool)
      modifies this
      ensures View() == Apply(old(View()), Complete(token), time)
      ensures ok <==> token in old(rows) && old(rows)[token].status.Running?
    {
      ok := token in rows && rows[token].status.Running?;
      if ok {
        rows := rows[token := rows[token].(status := Completed)];
      } else if token in rows {
        assert rows == rows[token := rows[token]];
      }
    }

    method FailConfirmation(token: string, retryable: bool, retryExpiresAt: Option<int>, time: int) returns (ok: bool)
      modifies this
      ensures View() == Apply(old(View()), Fail(token, retryable, retryExpiresAt), time)
      ensures ok <==> token in old(rows) && (old(rows)[token].status.Queued? || old(rows)[token].status.Running?)
    {
      ok := token in rows && (rows[token].status.Queued? || rows[token].status.Running?);
      if !ok {
        if token in rows {
          assert rows == rows[token := rows[token]];
        }
        return;
      }
      var row := rows[token];
      if retryable {
        var expiresAt := if retryExpiresAt.Some? then retryExpiresAt.value else row.expiresAt;
        rows := rows[token := row.(status := Pending, selected := None, queuedAt := None, expiresAt := expiresAt)];
      } else {
        rows := rows[token := row.(status := Failed)];
      }
    }
  }
}
