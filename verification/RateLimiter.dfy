/**
 * The sliding-window limiter of app/security.py (one instance for log-in, one
 * for set-up). It keeps pruned queues of failure times for a bounded number of
 * identities; the ghost fields keep the whole truth, and the answers are
 * compared with it. The clock never runs backwards.
 */
module RateLimiter {
  import opened Basics
  import Eviction

  const WINDOW := 900.0
  const MAX_FAILURES := 5
  const MAX_IDENTITIES := 4096

  predicate InWindow(t: real, now: real) {
    now - t <= WINDOW
  }

  predicate Sorted(s: seq<real>) {
    forall i, j :: 0 <= i < j < |s| ==> s[i] <= s[j]
  }

  predicate UpTo(s: seq<real>, now: real) {
    forall i :: 0 <= i < |s| ==> s[i] <= now
  }

  /** The failures within the window: what the answer should count. */
  function Recent(s: seq<real>, now: real): seq<real> {
    if s == [] then [] else (if InWindow(s[0], now) then [s[0]] else []) + Recent(s[1..], now)
  }

  /** What popping expired failures off the left leaves. */
  function Dropped(s: seq<real>, now: real): seq<real> {
    if s != [] && !InWindow(s[0], now) then Dropped(s[1..], now) else s
  }

  /** On a sorted queue, popping from the left keeps exactly the recent failures. */
  lemma {:induction false} DroppedIsRecent(s: seq<real>, now: real)
    requires Sorted(s)
    ensures Dropped(s, now) == Recent(s, now)
  {
    if s != [] {
      DroppedIsRecent(s[1..], now);
      if InWindow(s[0], now) {
        AllRecent(s, now);
      }
    }
  }

  lemma {:induction false} AllRecent(s: seq<real>, now: real)
    requires forall i :: 0 <= i < |s| ==> InWindow(s[i], now)
    ensures Recent(s, now) == s
  {
    if s != [] {
      AllRecent(s[1..], now);
    }
  }

  lemma {:induction false} RecentConcat(s: seq<real>, t: seq<real>, now: real)
    ensures Recent(s + t, now) == Recent(s, now) + Recent(t, now)
  {
    if s == [] {
      assert s + t == t;
    } else {
      var head := if InWindow(s[0], now) then [s[0]] else [];
      var u := s + t;
      assert u[0] == s[0] && u[1..] == s[1..] + t;
      RecentConcat(s[1..], t, now);
      assert Recent(u, now) == head + (Recent(s[1..], now) + Recent(t, now));
    }
  }

  lemma {:induction false} NoneRecent(s: seq<real>, now: real)
    requires forall i :: 0 <= i < |s| ==> !InWindow(s[i], now)
    ensures Recent(s, now) == []
  {
    if s != [] {
      NoneRecent(s[1..], now);
    }
  }

  /** Dropping takes a prefix of expired failures off. */
  lemma {:induction false} DroppedSuffix(s: seq<real>, now: real) returns (expired: seq<real>)
    ensures s == expired + Dropped(s, now) && forall i :: 0 <= i < |expired| ==> !InWindow(expired[i], now)
  {
    if s != [] && !InWindow(s[0], now) {
      var rest := DroppedSuffix(s[1..], now);
      expired := [s[0]] + rest;
    } else {
      expired := [];
    }
  }

  type Queues = map<string, seq<real>>

  function Pruned(queues: Queues, identity: string, now: real): Queues {
    if identity !in queues then queues
    else
      var rest := Dropped(queues[identity], now);
      if rest == [] then queues - {identity} else queues[identity := rest]
  }

  function AllPruned(queues: Queues, now: real): Queues {
    map id | id in queues && Dropped(queues[id], now) != [] :: Dropped(queues[id], now)
  }

  function QueueOf(queues: Queues, identity: string): seq<real> {
    if identity in queues then queues[identity] else []
  }

  /** A failure no longer queued has left the window, or was lost to an eviction. */
  ghost predicate Accounts(queue: seq<real>, history: seq<real>, lost: Option<real>, clock: real) {
    && |queue| <= |history| && history[|history| - |queue|..] == queue
    && forall i :: 0 <= i < |history| - |queue| ==> !InWindow(history[i], clock) || (lost.Some? && history[i] <= lost.value)
  }

  function LostOf(lost: map<string, real>, identity: string): Option<real> {
    if identity in lost then Some(lost[identity]) else None
  }

  /** The record of one identity, whether queued or not. */
  ghost predicate Straight(queue: seq<real>, history: seq<real>, lost: Option<real>, clock: real) {
    && Sorted(queue) && UpTo(queue, clock) && Sorted(history) && UpTo(history, clock)
    && Accounts(queue, history, lost, clock)
  }

  /** No queue is empty, and the queues account for the whole history. */
  ghost predicate Books(queues: Queues, history: Queues, lost: map<string, real>, clock: real) {
    && (forall id :: id in queues ==> queues[id] != [])
    && (forall id :: BookOf(queues, history, lost, clock, id))
  }

  ghost predicate BookOf(queues: Queues, history: Queues, lost: map<string, real>, clock: real, id: string) {
    Straight(QueueOf(queues, id), QueueOf(history, id), LostOf(lost, id), clock)
  }

  /** Last failure per identity, the age that eviction goes by. */
  function LastFailures(queues: Queues): map<string, real> {
    map id | id in queues && queues[id] != [] :: queues[id][|queues[id]| - 1]
  }

  ghost predicate OldestGone(ages: map<string, real>, gone: set<string>, left: set<string>)
    requires gone <= ages.Keys && left <= ages.Keys
  {
    forall g, k {:trigger ages[g], ages[k]} :: g in gone && k in left ==> ages[g] <= ages[k]
  }

  /** The places of the failures of the last fifteen minutes. */
  function Lately(s: seq<real>, now: real): set<nat> {
    set i | 0 <= i < |s| && now - s[i] <= 900.0
  }

  lemma {:induction false} LatelyCount(s: seq<real>, now: real)
    ensures |Recent(s, now)| == |Lately(s, now)|
  {
    if s != [] {
      LatelyCount(s[1..], now);
      var (rest, later) := (Lately(s[1..], now), Lately(s, now) - {0});
      Shifted(rest, later);
      assert Lately(s, now) == later + if now - s[0] <= 900.0 then {0} else {};
    }
  }

  lemma {:induction false} Shifted(a: set<nat>, b: set<nat>)
    requires forall i: nat :: i in a <==> i + 1 in b
    requires 0 !in b
    ensures |a| == |b|
  {
    if b != {} {
      var j :| j in b;
      assert j - 1 + 1 == j;
      assert j - 1 in a;
      Shifted(a - {j - 1}, b - {j});
    } else {
      assert a == {};
    }
  }

  /** The last failure is at most fifteen minutes old. */
  predicate Alive(s: seq<real>, now: real) {
    s != [] && now - s[|s| - 1] <= 900.0
  }

  lemma {:induction false} DroppedAlive(s: seq<real>, now: real)
    requires Sorted(s)
    ensures Dropped(s, now) != [] <==> Alive(s, now)
    ensures Alive(s, now) ==> Dropped(s, now)[|Dropped(s, now)| - 1] == s[|s| - 1]
  {
    if s != [] && !InWindow(s[0], now) {
      DroppedAlive(s[1..], now);
    }
  }

  /**
   * What a failure of an unknown identity costs a full house: if all 4096
   * identities have failed of late, the one whose last failure is oldest is
   * forgotten; otherwise nobody is.
   */
  ghost predicate Forgets(ages: map<string, real>, left: set<string>, lost: map<string, real>, lost': map<string, real>, now: real) {
    if |ages| == 4096 && forall id :: id in ages ==> now - ages[id] <= 900.0 then exists g :: ForgetsOne(ages, left, lost, lost', g)
    else lost' == lost
  }

  ghost predicate ForgetsOne(ages: map<string, real>, left: set<string>, lost: map<string, real>, lost': map<string, real>, g: string) {
    && g in ages && left == ages.Keys - {g} && lost' == lost[g := ages[g]]
    && forall k :: k in ages ==> ages[g] <= ages[k]
  }

  class Limiter {
    var queues: Queues
    ghost var clock: real
    /** All failures since the identity was last cleared. */
    ghost var history: Queues
    /** The latest failure that eviction took from an identity since then. */
    ghost var lost: map<string, real>

    ghost predicate Valid()
      reads this
    {
      Books(queues, history, lost, clock) && |queues| <= MAX_IDENTITIES
    }

    constructor ()
      ensures Valid() && queues == map[] && history == map[] && lost == map[]
    {
      queues, clock, history, lost := map[], 0.0, map[], map[];
    }

    /** `_prune_attempts` */
    method Prune(identity: string, now: real) returns (left: Option<seq<real>>)
      modifies `queues
      ensures queues == Pruned(old(queues), identity, now)
      ensures left == if identity in queues then Some(queues[identity]) else None
    {
      if identity !in queues {
        return None;
      }
      var attempts := queues[identity];
      while attempts != [] && now - attempts[0] > WINDOW
        invariant Dropped(attempts, now) == Dropped(queues[identity], now)
        decreases |attempts|
      {
        attempts := attempts[1..];
      }
      if attempts == [] {
        queues := queues - {identity};
        return None;
      }
      queues := queues[identity := attempts];
      left := Some(attempts);
    }

    method PruneAll(now: real)
      modifies `queues
      ensures queues == AllPruned(old(queues), now)
    {
      var left := queues.Keys;
      ghost var before := queues;
      while left != {}
        invariant left <= before.Keys && queues.Keys <= before.Keys
        invariant forall id :: id in left ==> id in queues && queues[id] == before[id]
        invariant forall id :: id in before.Keys - left ==>
                                 (id in queues <==> Dropped(before[id], now) != []) && (id in queues ==> queues[id] == Dropped(before[id], now))
        decreases left
      {
        var id :| id in left;
        left := left - {id};
        var _ := Prune(id, now);
      }
    }

    /** Drops the identities whose last failure is oldest until one more fits. */
    method EvictOldest()
      requires forall id :: id in queues ==> queues[id] != []
      modifies `queues
      ensures |queues| < MAX_IDENTITIES && queues.Keys <= old(queues).Keys
      ensures forall id :: id in queues ==> queues[id] == old(queues)[id]
      ensures OldestGone(LastFailures(old(queues)), old(queues).Keys - queues.Keys, queues.Keys)
      ensures if |old(queues)| < MAX_IDENTITIES then queues == old(queues) else |queues| == MAX_IDENTITIES - 1
    {
      ghost var before := queues;
      while |queues| >= MAX_IDENTITIES
        invariant queues.Keys <= before.Keys && forall id :: id in queues ==> queues[id] == before[id]
        invariant OldestGone(LastFailures(before), before.Keys - queues.Keys, queues.Keys)
        invariant |before| < MAX_IDENTITIES ==> queues == before
        invariant |before| >= MAX_IDENTITIES ==> |queues| >= MAX_IDENTITIES - 1
        decreases |queues|
      {
        var ages := LastFailures(queues);
        assert queues.Keys != {};
        var oldest := Eviction.Oldest(ages, queues.Keys);
        assert |queues - {oldest}| == |queues| - 1 by {
          assert (queues - {oldest}).Keys == queues.Keys - {oldest};
        }
        queues := queues - {oldest};
      }
    }

    /** The failures of an identity since it was last cleared. */
    ghost function Failures(identity: string): seq<real>
      reads this
    {
      QueueOf(history, identity)
    }

    /**
     * `login_rate_limited`, `setup_rate_limited`: five failures of the last fifteen
     * minutes, unless one of these was lost to an eviction.
     */
    method Limited(identity: string, now: real) returns (limited: bool)
      requires Valid() && now >= clock
      modifies this
      ensures Valid() && clock == now && history == old(history) && lost == old(lost)
      ensures limited ==> |Lately(Failures(identity), now)| >= 5
      ensures (identity in lost ==> now - lost[identity] > 900.0) ==> (limited <==> |Lately(Failures(identity), now)| >= 5)
    {
      BooksPruned(queues, history, lost, identity, clock, now);
      Answered(queues, history, lost, identity, clock, now);
      LatelyCount(Failures(identity), now);
      var left := Prune(identity, now);
      clock := now;
      limited := left.Some? && |left.value| >= MAX_FAILURES;
    }

    /** `record_login_failure`, `record_setup_failure` */
    method RecordFailure(identity: string, now: real)
      requires Valid() && now >= clock
      modifies this
      ensures Valid() && clock == now
      ensures history == old(history)[identity := old(Failures(identity)) + [now]]
      ensures if identity in old(queues) then lost == old(lost)
              else Forgets(LastFailures(old(queues)), queues.Keys - {identity}, old(lost), lost, now)
    {
      BooksPruned(queues, history, lost, identity, clock, now);
      var left := Prune(identity, now);
      clock := now;
      if identity in old(queues) {
        KnownHasRoom(old(queues), identity, now);
      }
      Admit(identity, now);
      assert left == if identity in queues then Some(queues[identity]) else None;
      ghost var kept := queues.Keys;
      Append(identity, if left.None? then [] else left.value, now);
      assert identity !in old(queues) ==> queues.Keys - {identity} == kept;
    }

    /** Sees to it that the identity has a queue or may get one. */
    method Admit(identity: string, now: real)
      requires Valid() && clock == now
      modifies `queues, `lost
      ensures Valid() && (identity in queues || |queues| < MAX_IDENTITIES)
      ensures identity in old(queues) || |old(queues)| < MAX_IDENTITIES ==> queues == old(queues) && lost == old(lost)
      ensures identity !in old(queues) ==> identity !in queues && Forgets(LastFailures(old(queues)), queues.Keys, old(lost), lost, now)
    {
      if identity !in queues && |queues| >= MAX_IDENTITIES {
        MakeRoom(now);
      } else if identity !in queues {
        HasRoom(queues, lost, now);
      }
    }

    method Append(identity: string, attempts: seq<real>, now: real)
      requires Valid() && clock == now && attempts == QueueOf(queues, identity) && (identity in queues || |queues| < MAX_IDENTITIES)
      modifies `queues, `history
      ensures Valid() && queues.Keys == old(queues).Keys + {identity}
      ensures history == old(history)[identity := QueueOf(old(history), identity) + [now]]
    {
      BooksFailure(queues, history, lost, identity, now);
      assert (queues[identity := attempts + [now]]).Keys == queues.Keys + {identity};
      queues := queues[identity := attempts + [now]];
      history := history[identity := QueueOf(history, identity) + [now]];
    }

    /** Expired queues go first; then, while still full, the identities whose last failure is oldest. */
    method MakeRoom(now: real)
      requires Valid() && clock == now
      modifies `queues, `lost
      ensures Valid() && |queues| < MAX_IDENTITIES && queues.Keys <= old(queues).Keys
      ensures Forgets(LastFailures(old(queues)), queues.Keys, old(lost), lost, now)
    {
      BooksAllPruned(queues, history, lost, clock);
      PruneAll(now);
      ghost var before := queues;
      EvictOldest();
      lost := Lost(before, queues, lost);
      BooksEvicted(before, queues, history, old(lost), clock);
      RoomMade(old(queues), before, queues, history, old(lost), clock);
    }

    /** `clear_login_failures`, `clear_setup_failures` */
    method Clear(identity: string)
      requires Valid()
      modifies this
      ensures Valid() && clock == old(clock)
      ensures queues == old(queues) - {identity} && history == old(history) - {identity} && lost == old(lost) - {identity}
    {
      BooksCleared(queues, history, lost, clock, identity);
      Eviction.Fewer((queues - {identity}).Keys, queues.Keys);
      queues := queues - {identity};
      history := history - {identity};
      lost := lost - {identity};
    }
  }

  // ----- the accounts -----

  /** Pruning a queue at a later time keeps the record straight. */
  lemma StraightDropped(queue: seq<real>, history: seq<real>, lost: Option<real>, clock: real, now: real)
    requires Straight(queue, history, lost, clock) && now >= clock
    ensures Straight(Dropped(queue, now), history, lost, now)
  {
    var expired := DroppedSuffix(queue, now);
    SuffixOrdered(expired, Dropped(queue, now), clock, now);
    SuffixAccounts(queue, history, lost, clock, now, expired, Dropped(queue, now));
  }

  lemma SuffixOrdered(expired: seq<real>, rest: seq<real>, clock: real, now: real)
    requires Sorted(expired + rest) && UpTo(expired + rest, clock) && now >= clock
    ensures Sorted(rest) && UpTo(rest, now)
  {
    assert forall i :: 0 <= i < |rest| ==> rest[i] == (expired + rest)[|expired| + i];
  }

  lemma SuffixAccounts(queue: seq<real>, history: seq<real>, lost: Option<real>, clock: real, now: real, expired: seq<real>, rest: seq<real>)
    requires Accounts(queue, history, lost, clock) && now >= clock
    requires queue == expired + rest && forall i :: 0 <= i < |expired| ==> !InWindow(expired[i], now)
    ensures Accounts(rest, history, lost, now)
  {
    var gone := |history| - |queue|;
    assert history[gone + |expired|..] == history[gone..][|expired|..] == rest;
    forall i | 0 <= i < |history| - |rest| ensures !InWindow(history[i], now) || (lost.Some? && history[i] <= lost.value) {
      if i >= gone {
        assert history[i] == history[gone..][i - gone] == expired[i - gone];
      }
    }
  }

  lemma StraightLater(queue: seq<real>, history: seq<real>, lost: Option<real>, clock: real, now: real)
    requires Straight(queue, history, lost, clock) && now >= clock
    ensures Straight(queue, history, lost, now)
  {
  }

  lemma BooksPruned(queues: Queues, history: Queues, lost: map<string, real>, identity: string, clock: real, now: real)
    requires Books(queues, history, lost, clock) && now >= clock
    ensures Books(Pruned(queues, identity, now), history, lost, now) && |Pruned(queues, identity, now)| <= |queues|
    ensures Pruned(queues, identity, now).Keys <= queues.Keys
  {
    var queues' := Pruned(queues, identity, now);
    PrunedKeys(queues, identity, now);
    forall id ensures BookOf(queues', history, lost, now, id) {
      assert BookOf(queues, history, lost, clock, id);
      PrunedQueue(queues, identity, now, id);
      if id == identity {
        StraightDropped(QueueOf(queues, id), QueueOf(history, id), LostOf(lost, id), clock, now);
      } else {
        StraightLater(QueueOf(queues, id), QueueOf(history, id), LostOf(lost, id), clock, now);
      }
    }
  }

  lemma PrunedKeys(queues: Queues, identity: string, now: real)
    requires forall id :: id in queues ==> queues[id] != []
    ensures var queues' := Pruned(queues, identity, now);
            queues'.Keys <= queues.Keys && |queues'| <= |queues| && forall id :: id in queues' ==> queues'[id] != []
  {
    var queues' := Pruned(queues, identity, now);
    assert queues'.Keys <= queues.Keys;
    Eviction.Fewer(queues'.Keys, queues.Keys);
  }

  lemma PrunedQueue(queues: Queues, identity: string, now: real, id: string)
    ensures QueueOf(Pruned(queues, identity, now), id) == if id == identity then Dropped(QueueOf(queues, id), now) else QueueOf(queues, id)
  {
  }

  lemma {:induction false} DroppedTwice(s: seq<real>, now: real)
    ensures Dropped(Dropped(s, now), now) == Dropped(s, now)
  {
    if s != [] && !InWindow(s[0], now) {
      DroppedTwice(s[1..], now);
    }
  }

  lemma BooksAllPruned(queues: Queues, history: Queues, lost: map<string, real>, clock: real)
    requires Books(queues, history, lost, clock)
    ensures Books(AllPruned(queues, clock), history, lost, clock) && |AllPruned(queues, clock)| <= |queues|
    ensures AllPruned(queues, clock).Keys <= queues.Keys
  {
    var queues' := AllPruned(queues, clock);
    assert queues'.Keys <= queues.Keys;
    Eviction.Fewer(queues'.Keys, queues.Keys);
    forall id ensures BookOf(queues', history, lost, clock, id) {
      assert BookOf(queues, history, lost, clock, id);
      assert QueueOf(queues', id) == Dropped(QueueOf(queues, id), clock);
      StraightDropped(QueueOf(queues, id), QueueOf(history, id), LostOf(lost, id), clock, clock);
    }
  }

  /** Notes the last failure of every evicted identity. */
  ghost function Lost(before: Queues, after: Queues, lost: map<string, real>): map<string, real>
    requires forall id :: id in before ==> before[id] != []
  {
    map id | id in lost.Keys + (before.Keys - after.Keys) ::
      if id in before && id !in after then before[id][|before[id]| - 1] else lost[id]
  }

  lemma BooksEvicted(before: Queues, after: Queues, history: Queues, lost: map<string, real>, clock: real)
    requires Books(before, history, lost, clock)
    requires after.Keys <= before.Keys && forall id :: id in after ==> after[id] == before[id]
    ensures Books(after, history, Lost(before, after, lost), clock)
  {
    var lost' := Lost(before, after, lost);
    forall id ensures BookOf(after, history, lost', clock, id) {
      assert BookOf(before, history, lost, clock, id);
      if id in before && id !in after {
        StraightEvicted(before[id], QueueOf(history, id), LostOf(lost, id), clock);
        assert LostOf(lost', id) == Some(before[id][|before[id]| - 1]);
      } else {
        assert LostOf(lost', id) == LostOf(lost, id) && QueueOf(after, id) == QueueOf(before, id);
      }
    }
  }

  /** A known identity that is pruned away leaves room. */
  lemma KnownHasRoom(queues: Queues, identity: string, now: real)
    requires |queues| <= MAX_IDENTITIES && identity in queues
    ensures identity in Pruned(queues, identity, now) || |Pruned(queues, identity, now)| < MAX_IDENTITIES
  {
    if identity !in Pruned(queues, identity, now) {
      assert Pruned(queues, identity, now).Keys == queues.Keys - {identity};
    }
  }

  lemma HasRoom(queues: Queues, lost: map<string, real>, now: real)
    requires |queues| < MAX_IDENTITIES
    ensures Forgets(LastFailures(queues), queues.Keys, lost, lost, now)
  {
    Eviction.Fewer(LastFailures(queues).Keys, queues.Keys);
  }

  lemma RoomMade(queues: Queues, before: Queues, after: Queues, history: Queues, lost: map<string, real>, now: real)
    requires Books(queues, history, lost, now) && |queues| <= MAX_IDENTITIES
    requires before == AllPruned(queues, now) && after.Keys <= before.Keys
    requires if |before| < MAX_IDENTITIES then after == before else |after| == MAX_IDENTITIES - 1
    requires OldestGone(LastFailures(before), before.Keys - after.Keys, after.Keys)
    ensures Forgets(LastFailures(queues), after.Keys, lost, Lost(before, after, lost), now)
  {
    AliveKept(queues, history, lost, now);
    if |before| < MAX_IDENTITIES {
      assert Lost(before, after, lost) == lost;
      DeadGone(LastFailures(queues), before.Keys, after.Keys, lost, now);
    } else {
      Eviction.Fewer(before.Keys, queues.Keys);
      FullHouse(LastFailures(queues), before, after, lost, now);
    }
  }

  /** Somebody was not alive: nobody is forgotten. */
  lemma DeadGone(ages: map<string, real>, before: set<string>, left: set<string>, lost: map<string, real>, now: real)
    requires |before| < MAX_IDENTITIES && forall id :: id in before <==> id in ages && now - ages[id] <= 900.0
    ensures Forgets(ages, left, lost, lost, now)
  {
    if forall id :: id in ages ==> now - ages[id] <= 900.0 {
      assert before == ages.Keys;
    }
  }

  lemma FullHouse(ages: map<string, real>, before: Queues, after: Queues, lost: map<string, real>, now: real)
    requires LastFailures(before) == ages && before.Keys == ages.Keys && |before| == MAX_IDENTITIES
    requires forall id :: id in ages ==> before[id] != [] && now - ages[id] <= 900.0
    requires after.Keys <= before.Keys && |after| == MAX_IDENTITIES - 1
    requires OldestGone(ages, ages.Keys - after.Keys, after.Keys)
    ensures Forgets(ages, after.Keys, lost, Lost(before, after, lost), now)
  {
    var g := OneEvicted(ages, after.Keys);
    assert Lost(before, after, lost) == lost[g := ages[g]];
    assert ForgetsOne(ages, after.Keys, lost, Lost(before, after, lost), g);
  }

  /** Dropping what is expired leaves the identities that are alive, with their last failures. */
  lemma AliveKept(queues: Queues, history: Queues, lost: map<string, real>, now: real)
    requires Books(queues, history, lost, now)
    ensures var (before, ages) := (AllPruned(queues, now), LastFailures(queues));
            && before.Keys <= queues.Keys && ages.Keys == queues.Keys
            && (forall id :: id in before <==> id in ages && now - ages[id] <= 900.0)
            && (forall id :: id in before ==> before[id] != [] && LastFailures(before)[id] == ages[id])
            && (before.Keys == queues.Keys ==> LastFailures(before) == ages)
  {
    forall id | id in queues
      ensures Dropped(queues[id], now) != [] <==> Alive(queues[id], now)
      ensures Alive(queues[id], now) ==> Dropped(queues[id], now)[|Dropped(queues[id], now)| - 1] == queues[id][|queues[id]| - 1]
    {
      assert BookOf(queues, history, lost, now, id);
      DroppedAlive(queues[id], now);
    }
  }

  lemma OneEvicted(ages: map<string, real>, after: set<string>) returns (g: string)
    requires after <= ages.Keys && |ages.Keys| == |after| + 1 && OldestGone(ages, ages.Keys - after, after)
    ensures g in ages && after == ages.Keys - {g} && forall k :: k in ages ==> ages[g] <= ages[k]
  {
    Eviction.Fewer(after, ages.Keys);
    g := Only(ages.Keys - after);
    assert after == ages.Keys - {g};
    forall k | k in ages ensures ages[g] <= ages[k] {
      assert k == g || k in after;
    }
  }

  lemma Only(gone: set<string>) returns (g: string)
    requires |gone| == 1
    ensures gone == {g}
  {
    g :| g in gone;
    Eviction.Fewer({g}, gone);
  }

  /** With its last failure noted as lost, an evicted identity needs no queue. */
  lemma StraightEvicted(queue: seq<real>, history: seq<real>, lost: Option<real>, clock: real)
    requires queue != [] && Straight(queue, history, lost, clock)
    ensures Straight([], history, Some(queue[|queue| - 1]), clock)
  {
    assert history[|history| - 1] == history[|history| - |queue|..][|queue| - 1];
    assert history[|history|..] == [];
  }

  lemma BooksFailure(queues: Queues, history: Queues, lost: map<string, real>, identity: string, now: real)
    requires Books(queues, history, lost, now)
    ensures Books(queues[identity := QueueOf(queues, identity) + [now]], history[identity := QueueOf(history, identity) + [now]], lost, now)
  {
    var queues' := queues[identity := QueueOf(queues, identity) + [now]];
    var history' := history[identity := QueueOf(history, identity) + [now]];
    forall id ensures BookOf(queues', history', lost, now, id) {
      assert BookOf(queues, history, lost, now, id);
      if id == identity {
        StraightFailure(QueueOf(queues, id), QueueOf(history, id), LostOf(lost, id), now);
      }
    }
  }

  lemma StraightFailure(queue: seq<real>, history: seq<real>, lost: Option<real>, now: real)
    requires Straight(queue, history, lost, now)
    ensures Straight(queue + [now], history + [now], lost, now)
  {
    var n := |history| - |queue|;
    assert (history + [now])[n..] == history[n..] + [now];
  }

  lemma BooksCleared(queues: Queues, history: Queues, lost: map<string, real>, clock: real, identity: string)
    requires Books(queues, history, lost, clock)
    ensures Books(queues - {identity}, history - {identity}, lost - {identity}, clock)
  {
    forall id ensures BookOf(queues - {identity}, history - {identity}, lost - {identity}, clock, id) {
      assert BookOf(queues, history, lost, clock, id);
    }
  }

  /** What the queue counts, and what it misses. */
  lemma Answer(queue: seq<real>, history: seq<real>, lost: Option<real>, now: real)
    requires Straight(queue, history, lost, now) && Dropped(queue, now) == queue
    ensures |queue| <= |Recent(history, now)|
    ensures lost.None? || !InWindow(lost.value, now) ==> Recent(history, now) == queue
  {
    var gone := history[..|history| - |queue|];
    assert history == gone + queue;
    RecentConcat(gone, queue, now);
    DroppedIsRecent(queue, now);
    if lost.None? || !InWindow(lost.value, now) {
      NoneRecent(gone, now);
    }
  }

  lemma Answered(queues: Queues, history: Queues, lost: map<string, real>, identity: string, clock: real, now: real)
    requires Books(queues, history, lost, clock) && now >= clock
    ensures var queue := QueueOf(Pruned(queues, identity, now), identity);
            && |queue| <= |Recent(QueueOf(history, identity), now)|
            && ((identity in lost ==> !InWindow(lost[identity], now)) ==> Recent(QueueOf(history, identity), now) == queue)
  {
    var queue := QueueOf(queues, identity);
    assert BookOf(queues, history, lost, clock, identity);
    PrunedQueue(queues, identity, now, identity);
    StraightDropped(queue, QueueOf(history, identity), LostOf(lost, identity), clock, now);
    DroppedTwice(queue, now);
    Answer(Dropped(queue, now), QueueOf(history, identity), LostOf(lost, identity), now);
  }
}
