/**
 * The organize-confirmation table of app/database.py: a confirmation waits for
 * a human or an agent to choose a candidate, is queued, run and settled. Each
 * transaction is one step on the map of rows.
 */
module OrganizeConfirmations {
  import opened Basics

  datatype Status = Pending | Queued | Running | Completed | Failed | Expired | Cancelled

  datatype Review = NoReview | Waiting | Ready | Reviewing | Approved | Abstained | ReviewFailed | ReviewCancelled

  datatype Actor = Human | Agent

  /** `claims` is the history of who claimed the row; the table itself keeps only the last. */
  datatype Row = Row(
    id: nat, fingerprint: string, chat: string, status: Status, selected: Option<int>, queuedAt: Option<int>,
    createdAt: int, expiresAt: int, review: Review, attempts: nat, actor: Option<Actor>, claims: seq<Actor>)

  type Rows = map<string, Row>

  datatype Table = Table(rows: Rows, nextId: nat)

  const MAX_ATTEMPTS := 3

  /** One transaction; `ClaimReview` carries the row that the query selected. */
  datatype Op =
    | Create(token: string, fingerprint: string, chat: string, expiresAt: int, requested: bool, ready: bool)
    | Activate(token: string)
    | RecoverReviews
    | ClaimReview(chosen: Option<string>)
    | CompleteReview(token: string, verdict: Review)
    | Claim(token: string, chat: string, index: int, actor: Actor, queuedAt: int)
    | Cancel(token: string, chat: string)
    | Expire(token: string)
    | Start(token: string)
    | Requeue(token: string)
    | Release(token: string, running: bool)
    | Complete(token: string)
    | Fail(token: string, retryable: bool, retryExpiresAt: Option<int>)

  predicate IsOpen(review: Review) {
    review.Waiting? || review.Ready? || review.Reviewing?
  }

  predicate IsVerdict(review: Review) {
    review.Approved? || review.Abstained? || review.ReviewFailed? || review.ReviewCancelled?
  }

  predicate Terminal(status: Status) {
    status.Completed? || status.Failed? || status.Expired? || status.Cancelled?
  }

  function Closed(review: Review): Review {
    if IsOpen(review) then ReviewCancelled else review
  }

  function Superseded(r: Row): Row {
    r.(status := Expired, review := Closed(r.review))
  }

  function Ended(r: Row, status: Status): Row {
    r.(status := status, selected := None, queuedAt := None, review := Closed(r.review))
  }

  function Chosen(r: Row, index: int, actor: Actor, queuedAt: int): Row {
    r.(status := Queued, selected := Some(index), queuedAt := Some(queuedAt), actor := Some(actor),
       review := if actor.Agent? then Approved else Closed(r.review), claims := r.claims + [actor])
  }

  function Reopened(r: Row): Row {
    r.(status := Pending, selected := None, queuedAt := None)
  }

  predicate MatchesChat(r: Row, chat: string) {
    r.chat == "" || r.chat == chat
  }

  predicate ReviewDue(r: Row, time: int) {
    r.review.Ready? && r.status.Pending? && r.attempts < MAX_ATTEMPTS && r.expiresAt > time
  }

  /** `ORDER BY id ASC LIMIT 1` over the reviews that are due. */
  ghost predicate IsNextReview(rows: Rows, time: int, chosen: Option<string>) {
    match chosen
    case None => forall t :: t in rows ==> !ReviewDue(rows[t], time)
    case Some(token) =>
      && token in rows && ReviewDue(rows[token], time)
      && forall t :: t in rows && ReviewDue(rows[t], time) ==> rows[token].id <= rows[t].id
  }

  ghost predicate Enabled(s: Table, op: Op, time: int) {
    op.ClaimReview? ==> IsNextReview(s.rows, time, op.chosen)
  }

  /** What an operation makes of the row it names. */
  function RowAfter(r: Row, op: Op, time: int): Row {
    match op
    case Activate(_) => if r.status.Pending? && r.review.Waiting? && r.expiresAt > time then r.(review := Ready) else r
    case ClaimReview(_) => r.(review := Reviewing, attempts := r.attempts + 1)
    case CompleteReview(_, verdict) => if r.review.Reviewing? && IsVerdict(verdict) then r.(review := verdict) else r
    case Claim(_, chat, index, actor, queuedAt) =>
      if !MatchesChat(r, chat) || !r.status.Pending? then r
      else if r.expiresAt <= time then Ended(r, Expired)
      else if actor.Agent? && !r.review.Reviewing? then r
      else Chosen(r, index, actor, queuedAt)
    case Cancel(_, chat) =>
      if !MatchesChat(r, chat) || !r.status.Pending? then r
      else Ended(r, if r.expiresAt <= time then Expired else Cancelled)
    case Expire(_) => if r.status.Pending? && r.expiresAt <= time then Ended(r, Expired) else r
    case Start(_) => if r.status.Queued? then r.(status := Running) else r
    case Requeue(_) => if r.status.Running? then r.(status := Queued) else r
    case Release(_, running) => if r.status.Queued? || (running && r.status.Running?) then Reopened(r) else r
    case Complete(_) => if r.status.Running? then r.(status := Completed) else r
    case Fail(_, retryable, retryExpiresAt) =>
      if !r.status.Queued? && !r.status.Running? then r
      else if retryable then
        Reopened(r).(expiresAt := if retryExpiresAt.Some? then retryExpiresAt.value else r.expiresAt)
      else r.(status := Failed)
    case _ => r
  }

  function Interrupted(r: Row): Row {
    if r.review.Reviewing? && r.status.Pending? then
      r.(review := if r.attempts >= MAX_ATTEMPTS then ReviewFailed else Ready)
    else r
  }

  function Supersede(rows: Rows, fingerprint: string): Rows {
    map t | t in rows :: if rows[t].fingerprint == fingerprint && rows[t].status.Pending? then Superseded(rows[t]) else rows[t]
  }

  function Fresh(s: Table, op: Op, time: int): Row
    requires op.Create?
  {
    Row(s.nextId, op.fingerprint, op.chat, Pending, None, None, time, op.expiresAt,
        if op.requested then (if op.ready then Ready else Waiting) else NoReview, 0, None, [])
  }

  /** The row an operation works on, if it is one row. */
  function Names(op: Op): Option<string> {
    match op
    case Create(_, _, _, _, _, _) => None
    case RecoverReviews => None
    case ClaimReview(chosen) => chosen
    case _ => Some(op.token)
  }

  function Apply(s: Table, op: Op, time: int): Table {
    match op
    case Create(token, fingerprint, _, _, _, _) =>
      if token in s.rows then s
      else Table(Supersede(s.rows, fingerprint)[token := Fresh(s, op, time)], s.nextId + 1)
    case RecoverReviews => s.(rows := map t | t in s.rows :: Interrupted(s.rows[t]))
    case _ =>
      var token := Names(op);
      if token.Some? && token.value in s.rows then s.(rows := s.rows[token.value := RowAfter(s.rows[token.value], op, time)])
      else s
  }

  const EMPTY := Table(map[], 1)

  // ----- the invariant -----

  predicate InHand(status: Status) {
    status.Queued? || status.Running? || status.Completed? || status.Failed?
  }

  predicate RowOk(r: Row) {
    // a choice is recorded exactly while it is in force
    && (r.selected.Some? <==> InHand(r.status)) && (r.queuedAt.Some? <==> InHand(r.status))
    // an open review means that nobody ever claimed the row, and that it still waits
    && (IsOpen(r.review) ==> r.status.Pending? && r.claims == [])
    && r.attempts <= MAX_ATTEMPTS
    && (InHand(r.status) ==> r.claims != [] && r.actor == Some(r.claims[|r.claims| - 1]))
    // only the very first claim can be an agent's
    && forall i :: 0 < i < |r.claims| ==> r.claims[i].Human?
  }

  ghost predicate Inv(s: Table) {
    && (forall t :: t in s.rows ==> RowOk(s.rows[t]) && s.rows[t].id < s.nextId)
    && (forall t, u :: t in s.rows && u in s.rows && s.rows[t].id == s.rows[u].id ==> t == u)
  }

  /** How one row may change in one step. */
  predicate RowStep(r: Row, r': Row) {
    && r'.id == r.id && r'.createdAt == r.createdAt && r.claims <= r'.claims && r.attempts <= r'.attempts
    && (Terminal(r.status) ==> r' == r)
    && (r.review.Approved? ==> r'.review.Approved?)
    && (|r'.claims| <= |r.claims| + 1)
    && (r'.claims != r.claims ==> r.status.Pending? && r'.status.Queued?)
  }

  lemma RowSteps(r: Row, op: Op, time: int)
    requires RowOk(r) && (op.ClaimReview? ==> ReviewDue(r, time))
    ensures RowOk(RowAfter(r, op, time)) && RowStep(r, RowAfter(r, op, time))
  {
  }

  lemma OtherRowSteps(r: Row)
    requires RowOk(r)
    ensures RowOk(Interrupted(r)) && RowStep(r, Interrupted(r))
    ensures r.status.Pending? ==> RowOk(Superseded(r)) && RowStep(r, Superseded(r))
  {
  }

  /** Every row keeps its invariant and changes only as `RowStep` allows; no row disappears. */
  lemma TableStep(s: Table, op: Op, time: int, t: string)
    requires Inv(s) && Enabled(s, op, time) && t in s.rows
    ensures t in Apply(s, op, time).rows
    ensures RowOk(Apply(s, op, time).rows[t]) && RowStep(s.rows[t], Apply(s, op, time).rows[t])
  {
    OtherRowSteps(s.rows[t]);
    if Names(op) == Some(t) {
      RowSteps(s.rows[t], op, time);
    }
  }

  lemma InvStep(s: Table, op: Op, time: int)
    requires Inv(s) && Enabled(s, op, time)
    ensures Inv(Apply(s, op, time))
  {
    var s' := Apply(s, op, time);
    forall t | t in s'.rows ensures RowOk(s'.rows[t]) && s'.rows[t].id < s'.nextId {
      if t in s.rows {
        TableStep(s, op, time, t);
      }
    }
    forall t, u | t in s'.rows && u in s'.rows && s'.rows[t].id == s'.rows[u].id ensures t == u {
      if t in s.rows {
        TableStep(s, op, time, t);
      }
      if u in s.rows {
        TableStep(s, op, time, u);
      }
    }
  }

  // ----- runs -----

  datatype Event = Event(op: Op, time: int)

  ghost predicate Follows(s: Table, e: Event, s': Table) {
    Enabled(s, e.op, e.time) && s' == Apply(s, e.op, e.time)
  }

  ghost predicate Run(states: seq<Table>, events: seq<Event>) {
    && |states| == |events| + 1 && states[0] == EMPTY
    && forall i :: 0 <= i < |events| ==> Follows(states[i], events[i], states[i + 1])
  }

  lemma {:induction false} InvAlways(states: seq<Table>, events: seq<Event>, i: nat)
    requires Run(states, events) && i <= |events|
    ensures Inv(states[i])
  {
    if i > 0 {
      InvAlways(states, events, i - 1);
      assert Follows(states[i - 1], events[i - 1], states[i]);
      InvStep(states[i - 1], events[i - 1].op, events[i - 1].time);
    }
  }

  lemma {:induction false} RowHistory(states: seq<Table>, events: seq<Event>, i: nat, j: nat, t: string)
    requires Run(states, events) && i <= j <= |events| && t in states[i].rows
    ensures t in states[j].rows
    ensures var (r, r') := (states[i].rows[t], states[j].rows[t]);
            r'.id == r.id && r.claims <= r'.claims && r.attempts <= r'.attempts && (Terminal(r.status) ==> r' == r)
  {
    if i < j {
      RowHistory(states, events, i, j - 1, t);
      InvAlways(states, events, j - 1);
      assert Follows(states[j - 1], events[j - 1], states[j]);
      TableStep(states[j - 1], events[j - 1].op, events[j - 1].time, t);
    }
  }

  /** Completed, failed, expired and cancelled rows never change again, whatever is tried on them. */
  lemma TerminalForever(states: seq<Table>, events: seq<Event>, i: nat, j: nat, t: string)
    requires Run(states, events) && i <= j <= |events| && t in states[i].rows
    requires var status := states[i].rows[t].status; status.Completed? || status.Failed? || status.Expired? || status.Cancelled?
    ensures t in states[j].rows && states[j].rows[t] == states[i].rows[t]
  {
    RowHistory(states, events, i, j, t);
  }

  /** In every reachable table: a choice is in force exactly while the row is in hand, open reviews belong to unclaimed waiting rows, and attempts are bounded. */
  lemma LifecycleInvariant(states: seq<Table>, events: seq<Event>, i: nat, t: string)
    requires Run(states, events) && i <= |events| && t in states[i].rows
    ensures var r := states[i].rows[t];
            && (r.selected.Some? <==> r.status.Queued? || r.status.Running? || r.status.Completed? || r.status.Failed?)
            && (IsOpen(r.review) ==> r.status.Pending? && r.claims == [])
            && r.attempts <= 3
  {
    InvAlways(states, events, i);
  }

  /** An agent claims a confirmation at most once, and never after anyone else has. */
  lemma AgentClaimsOnlyFirst(states: seq<Table>, events: seq<Event>, i: nat, j: nat, t: string)
    requires Run(states, events) && i < j <= |events| && t in states[i].rows && t in states[j].rows
    requires states[i].rows[t].claims != []
    ensures forall k :: |states[i].rows[t].claims| <= k < |states[j].rows[t].claims| ==> states[j].rows[t].claims[k].Human?
    ensures |states[j].rows[t].claims| >= |states[i].rows[t].claims|
  {
    RowHistory(states, events, i, j, t);
    InvAlways(states, events, j);
  }

  /** An agent's claim succeeds exactly when its review is running; it then always leaves the row approved and queued. */
  lemma AgentClaim(states: seq<Table>, events: seq<Event>, i: nat, t: string)
    requires Run(states, events) && i < |events| && t in states[i].rows
    requires events[i].op.Claim? && events[i].op.token == t && events[i].op.actor.Agent?
    ensures var (r, r') := (states[i].rows[t], states[i + 1].rows[t]);
            && t in states[i + 1].rows
            && (r'.claims != r.claims <==> r.review.Reviewing? && MatchesChat(r, events[i].op.chat) && events[i].time < r.expiresAt)
            && (r'.claims != r.claims ==> r.claims == [] && r'.review.Approved? && r'.status.Queued?)
  {
    InvAlways(states, events, i);
    assert Follows(states[i], events[i], states[i + 1]);
    assert RowOk(states[i].rows[t]);
  }

  /** A human claim closes an open review, so the agent that was at work has lost. */
  lemma HumanClaimWins(states: seq<Table>, events: seq<Event>, i: nat, j: nat, t: string)
    requires Run(states, events) && i < j <= |events| && t in states[i].rows
    requires states[i].rows[t].claims != []
    ensures t in states[j].rows && !IsOpen(states[j].rows[t].review)
  {
    RowHistory(states, events, i, j, t);
    InvAlways(states, events, j);
    assert RowOk(states[j].rows[t]);
  }
}
