/**
 * Safety of confirmation tickets over whole runs, for either store: a ticket is
 * what was issued, it is granted at most once, to its owner and in time; rival
 * tickets die with a grant; a generation read before a rotation is worthless.
 */
module ConfirmationSafety {
  import opened Basics
  import opened Eviction
  import opened ConfirmationTickets

  // ----- the state invariant -----

  /**
   * Every stored ticket has an owner with an epoch and carries that epoch's
   * generation. In SQLite this holds for the tickets not yet expired at the
   * last call: a preserving rotation leaves expired rows under the old one.
   */
  ghost predicate Inv(kind: Kind, cfg: Settings, s: Store, clock: real) {
    && cfg.Valid()
    && |s.tickets.Keys| <= cfg.maxEntries
    && (forall id :: id in s.tickets ==> id != "" && Bound(kind, s, clock, s.tickets[id]))
  }

  ghost predicate Bound(kind: Kind, s: Store, clock: real, t: Ticket) {
    && t.owner != "" && t.owner in s.epochs
    && (kind.Memory? || t.expiresAt > clock ==> t.generation == s.epochs[t.owner].generation)
  }

  /** What a clean-up can do: take things away, but no epoch that a remaining ticket needs. */
  ghost predicate Within(mid: Store, s: Store) {
    && mid.tickets.Keys <= s.tickets.Keys && mid.epochs.Keys <= s.epochs.Keys
    && (forall id :: id in mid.tickets ==> mid.tickets[id] == s.tickets[id])
    && (forall o :: o in mid.epochs ==> mid.epochs[o] == s.epochs[o])
    && (forall id :: id in mid.tickets && mid.tickets[id].owner in s.epochs ==> mid.tickets[id].owner in mid.epochs)
  }

  lemma PruneWithin(cfg: Settings, s: Store, now: real, mid: Store)
    requires Pruned(cfg, s, now, mid)
    ensures Within(mid, s) && mid.tickets == InGrace(cfg, s.tickets, now)
  {
    var active := Owners(mid.tickets);
    var recent := RecentEpochs(cfg, s.epochs, active, now);
    forall id | id in mid.tickets && mid.tickets[id].owner in s.epochs ensures mid.tickets[id].owner in mid.epochs {
      assert mid.tickets[id].owner in active;
    }
  }

  lemma {:induction false} PickedId(ids: seq<string>, taken: set<string>)
    ensures PickId(ids, taken).Some? ==>
              var id := PickId(ids, taken).value;
              id != "" && id !in taken && exists k :: 0 <= k < |ids| && NormalizeId(ids[k]) == id
  {
    if ids != [] && PickId(ids, taken) == PickId(ids[1..], taken) {
      PickedId(ids[1..], taken);
      if PickId(ids[1..], taken).Some? {
        var k :| 0 <= k < |ids[1..]| && NormalizeId(ids[1..][k]) == PickId(ids, taken).value;
        assert ids[1 + k] == ids[1..][k];
      }
    }
  }

  lemma {:induction false} PickedGeneration(draws: seq<nat>, taken: set<nat>)
    ensures PickGeneration(draws, taken).Some? ==>
              var g := PickGeneration(draws, taken).value;
              g > 0 && g !in taken && exists k :: 0 <= k < |draws| && NonZero(draws[k]) == g
  {
    if draws != [] && NonZero(draws[0]) in taken {
      PickedGeneration(draws[1..], taken);
      if PickGeneration(draws, taken).Some? {
        var k :| 0 <= k < |draws[1..]| && NonZero(draws[1..][k]) == PickGeneration(draws, taken).value;
        assert draws[1 + k] == draws[1..][k];
      }
    }
  }

  /** The ids and generations a call may bring into use. */
  function IdsOf(op: Op): set<string> {
    if op.Issue? then set k | 0 <= k < |op.ids| && NormalizeId(op.ids[k]) != "" :: NormalizeId(op.ids[k]) else {}
  }

  function DrawsIn(draws: seq<nat>): set<nat> {
    set k | 0 <= k < |draws| :: NonZero(draws[k])
  }

  function DrawsOf(op: Op): set<nat> {
    if op.Issue? || op.Claim? || op.Rotate? || op.ReadGeneration? then DrawsIn(op.draws) else {}
  }

  lemma NewGenerationDrawn(epochs: map<string, Epoch>, draws: seq<nat>)
    ensures var g := NewGeneration(epochs, draws); g.Some? ==> g.value in DrawsIn(draws) && g.value !in LiveGenerations(epochs)
  {
    PickedGeneration(FirstEight(draws), LiveGenerations(epochs));
    var g := NewGeneration(epochs, draws);
    if g.Some? {
      var k :| 0 <= k < |FirstEight(draws)| && NonZero(FirstEight(draws)[k]) == g.value;
      assert draws[k] == FirstEight(draws)[k];
    }
  }

  lemma IdDrawn(op: Op, taken: set<string>)
    requires op.Issue?
    ensures var id := PickId(FirstEight(op.ids), taken); id.Some? ==> id.value in IdsOf(op) && id.value !in taken && id.value != ""
  {
    PickedId(FirstEight(op.ids), taken);
    var id := PickId(FirstEight(op.ids), taken);
    if id.Some? {
      var k :| 0 <= k < |FirstEight(op.ids)| && NormalizeId(FirstEight(op.ids)[k]) == id.value;
      assert op.ids[k] == FirstEight(op.ids)[k];
    }
  }

  /** The invariant holds initially and every call keeps it, whatever its choices and its outcome. */
  lemma InvInitially(kind: Kind, cfg: Settings, clock: real)
    requires cfg.Valid()
    ensures Inv(kind, cfg, Store(map[], map[]), clock)
  {
  }

  lemma InvStep(kind: Kind, cfg: Settings, s: Store, clock: real, op: Op, now: real, c: Choice, s': Store, r: Reply)
    requires Inv(kind, cfg, s, clock) && clock <= now
    requires Step(kind, cfg, s, op, now, c, s', r)
    ensures Inv(kind, cfg, s', now)
  {
    PruneWithin(cfg, s, now, c.mid);
    InvWithin(kind, cfg, s, clock, now, c.mid);
    if op.Issue? {
      InvIssue(kind, cfg, s, op, now, c);
    } else if op.Claim? {
      InvClaim(kind, cfg, s, op, now, c);
    } else if op.Rotate? {
      InvRotate(kind, cfg, s, op, now, c);
    } else if op.Discard? {
      InvDiscard(kind, cfg, s, op, now, c);
    } else if op.ReadGeneration? {
      InvRead(kind, cfg, s, op, now, c);
    } else if op.ListActive? {
      InvList(kind, cfg, s, op, now, c);
    }
  }

  lemma InvWithin(kind: Kind, cfg: Settings, s: Store, clock: real, now: real, mid: Store)
    requires Inv(kind, cfg, s, clock) && clock <= now && Within(mid, s)
    ensures Inv(kind, cfg, mid, now) && Inv(kind, cfg, s, now)
  {
    Fewer(mid.tickets.Keys, s.tickets.Keys);
  }

  /** Room for one more: eviction is counted over the tickets that are not being replaced. */
  lemma RoomForOne(age: map<string, real>, stored: set<string>, replaced: set<string>, max: nat, gone: set<string>)
    requires max >= 1 && replaced <= stored
    requires OldestRemoved(age, stored - replaced, |stored| - |replaced| + 1 - max, gone)
    ensures |stored - gone - replaced| + 1 <= max
  {
    Fewer(replaced, stored);
    Fewer(gone, stored - replaced);
    assert stored - gone - replaced == (stored - replaced) - gone;
  }

  lemma InvIssue(kind: Kind, cfg: Settings, s: Store, op: Op, now: real, c: Choice)
    requires Inv(kind, cfg, s, now) && Inv(kind, cfg, c.mid, now)
    requires op.Issue? && Evicts(cfg, op, now, c)
    ensures Inv(kind, cfg, IssueEffect(kind, cfg, s, op, now, c).0, now)
  {
    IssueShape(kind, cfg, s, op, now, c);
    var (s', r) := IssueEffect(kind, cfg, s, op, now, c);
    IssueRoom(cfg, s, op, now, c, s', r);
    IssueBound(kind, cfg, s, op, now, c, s', r);
  }

  /** The two outcomes of an issue: a card inserted for the owner's generation, or a refusal. */
  ghost predicate IssueShaped(s: Store, op: Op, now: real, c: Choice, s': Store, r: Reply)
    requires op.Issue?
  {
    var epochs := TouchEpoch(c.mid.epochs, op.owner, now, op.draws);
    if r.Issued? then
      && epochs.Some? && s'.epochs == epochs.value && op.owner != ""
      && r.id != "" && r.id in IdsOf(op)
      && r.ticket.owner == op.owner && r.ticket.generation == epochs.value[op.owner].generation
      && (op.expected.Some? ==> op.expected.value == r.ticket.generation)
      && s'.tickets == Insert(c.mid.tickets, c.gone, Replaced(c.mid.tickets, op.owner, r.ticket.generation, op.replace), r.id, r.ticket)
    else
      r == Rejected && (s' == s || s' == c.mid || (epochs.Some? && s' == Store(c.mid.tickets, epochs.value)))
  }

  lemma IssueShape(kind: Kind, cfg: Settings, s: Store, op: Op, now: real, c: Choice)
    requires op.Issue?
    ensures var (s', r) := IssueEffect(kind, cfg, s, op, now, c); IssueShaped(s, op, now, c, s', r)
  {
    IdDrawn(op, if kind.Memory? then c.mid.tickets.Keys else c.mid.tickets.Keys - c.gone);
  }

  lemma IssueRoom(cfg: Settings, s: Store, op: Op, now: real, c: Choice, s': Store, r: Reply)
    requires cfg.Valid() && |s.tickets.Keys| <= cfg.maxEntries && |c.mid.tickets.Keys| <= cfg.maxEntries
    requires op.Issue? && Evicts(cfg, op, now, c) && IssueShaped(s, op, now, c, s', r)
    ensures |s'.tickets.Keys| <= cfg.maxEntries
  {
    if r.Issued? {
      var tickets := c.mid.tickets;
      var replaced := Replaced(tickets, op.owner, r.ticket.generation, op.replace);
      RoomForOne(Expiry(tickets), tickets.Keys, replaced, cfg.maxEntries, c.gone);
    }
  }

  lemma IssueBound(kind: Kind, cfg: Settings, s: Store, op: Op, now: real, c: Choice, s': Store, r: Reply)
    requires Inv(kind, cfg, s, now) && Inv(kind, cfg, c.mid, now) && op.Issue? && IssueShaped(s, op, now, c, s', r)
    ensures forall id :: id in s'.tickets ==> id != "" && Bound(kind, s', now, s'.tickets[id])
  {
    TouchKeepsBound(kind, cfg, c.mid, op.owner, now, op.draws);
    if r.Issued? {
      var reached := Store(c.mid.tickets, s'.epochs);
      forall id | id in s'.tickets ensures id != "" && Bound(kind, s', now, s'.tickets[id]) {
        if id != r.id {
          assert Bound(kind, reached, now, c.mid.tickets[id]);
        }
      }
    }
  }

  /** Touching or creating an epoch disturbs no ticket. */
  lemma TouchKeepsBound(kind: Kind, cfg: Settings, mid: Store, owner: string, now: real, draws: seq<nat>)
    requires Inv(kind, cfg, mid, now)
    ensures var epochs := TouchEpoch(mid.epochs, owner, now, draws);
            epochs.Some? ==> Inv(kind, cfg, Store(mid.tickets, epochs.value), now)
  {
    var epochs := TouchEpoch(mid.epochs, owner, now, draws);
    if epochs.Some? {
      forall id | id in mid.tickets ensures Bound(kind, Store(mid.tickets, epochs.value), now, mid.tickets[id]) {
        assert Bound(kind, mid, now, mid.tickets[id]);
      }
    }
  }

  lemma InvClaim(kind: Kind, cfg: Settings, s: Store, op: Op, now: real, c: Choice)
    requires Inv(kind, cfg, s, now) && Inv(kind, cfg, c.mid, now) && op.Claim?
    ensures Inv(kind, cfg, ClaimEffect(kind, s, op, now, c).0, now)
  {
    var (s', r) := ClaimEffect(kind, s, op, now, c);
    if s'.tickets.Keys <= c.mid.tickets.Keys {
      Fewer(s'.tickets.Keys, c.mid.tickets.Keys);
    }
  }

  lemma InvRotate(kind: Kind, cfg: Settings, s: Store, op: Op, now: real, c: Choice)
    requires Inv(kind, cfg, s, now) && Inv(kind, cfg, c.mid, now) && op.Rotate?
    ensures Inv(kind, cfg, RotateEffect(kind, s, op, now, c).0, now)
  {
    var (s', r) := RotateEffect(kind, s, op, now, c);
    if r.Rotated? {
      assert s'.tickets.Keys <= c.mid.tickets.Keys;
      Fewer(s'.tickets.Keys, c.mid.tickets.Keys);
      forall id | id in s'.tickets ensures id != "" && Bound(kind, s', now, s'.tickets[id]) {
        assert Bound(kind, c.mid, now, c.mid.tickets[id]);
      }
    }
  }

  lemma InvDiscard(kind: Kind, cfg: Settings, s: Store, op: Op, now: real, c: Choice)
    requires Inv(kind, cfg, s, now) && Inv(kind, cfg, c.mid, now) && op.Discard?
    ensures Inv(kind, cfg, DiscardEffect(kind, s, op, c).0, now)
  {
    var s' := DiscardEffect(kind, s, op, c).0;
    if s'.tickets.Keys <= c.mid.tickets.Keys {
      Fewer(s'.tickets.Keys, c.mid.tickets.Keys);
    }
  }

  lemma InvRead(kind: Kind, cfg: Settings, s: Store, op: Op, now: real, c: Choice)
    requires Inv(kind, cfg, s, now) && Inv(kind, cfg, c.mid, now) && op.ReadGeneration?
    ensures Inv(kind, cfg, ReadEffect(kind, s, op, now, c).0, now)
  {
    TouchKeepsBound(kind, cfg, c.mid, op.owner, now, op.draws);
  }

  lemma InvList(kind: Kind, cfg: Settings, s: Store, op: Op, now: real, c: Choice)
    requires Inv(kind, cfg, s, now) && Inv(kind, cfg, c.mid, now) && op.ListActive?
    ensures Inv(kind, cfg, ListEffect(s, op, now, c).0, now)
  {
    TouchKeepsBound(kind, cfg, c.mid, op.owner, now, []);
  }

  // ----- generations of different owners -----

  /** No two owners share a generation, and none has generation zero. */
  ghost predicate Apart(epochs: map<string, Epoch>) {
    && (forall o :: o in epochs ==> epochs[o].generation > 0)
    && (forall a, b {:trigger epochs[a], epochs[b]} :: a in epochs && b in epochs && epochs[a].generation == epochs[b].generation ==> a == b)
  }

  lemma ApartMoved(epochs: map<string, Epoch>, owner: string, draws: seq<nat>, now: real)
    requires Apart(epochs) && NewGeneration(epochs, draws).Some?
    ensures Apart(epochs[owner := Epoch(NewGeneration(epochs, draws).value, now)])
  {
    PickedGeneration(FirstEight(draws), LiveGenerations(epochs));
  }

  lemma ApartTouched(epochs: map<string, Epoch>, owner: string, now: real, draws: seq<nat>)
    requires Apart(epochs) && TouchEpoch(epochs, owner, now, draws).Some?
    ensures Apart(TouchEpoch(epochs, owner, now, draws).value)
  {
    if owner !in epochs {
      ApartMoved(epochs, owner, draws, now);
    }
  }

  lemma ApartClaim(kind: Kind, s: Store, op: Op, now: real, c: Choice)
    requires op.Claim? && Apart(s.epochs) && Apart(c.mid.epochs)
    ensures Apart(ClaimEffect(kind, s, op, now, c).0.epochs)
  {
    if op.owner in c.mid.epochs {
      var touched := c.mid.epochs[op.owner := Epoch(c.mid.epochs[op.owner].generation, now)];
      ApartTouched(c.mid.epochs, op.owner, now, op.draws);
      TouchKeepsGenerations(c.mid.epochs, op.owner, now);
      if NewGeneration(c.mid.epochs, op.draws).Some? {
        ApartMoved(c.mid.epochs, op.owner, op.draws, now);
      }
    }
  }

  /** Every call of either store keeps the generations of its epochs distinct and non-zero. */
  lemma EpochsStep(kind: Kind, cfg: Settings, s: Store, op: Op, now: real, c: Choice, s': Store, r: Reply)
    requires Apart(s.epochs) && Step(kind, cfg, s, op, now, c, s', r)
    ensures Apart(s'.epochs)
  {
    PruneWithin(cfg, s, now, c.mid);
    assert Apart(c.mid.epochs);
    EpochsEffect(kind, cfg, s, op, now, c);
  }

  lemma EpochsEffect(kind: Kind, cfg: Settings, s: Store, op: Op, now: real, c: Choice)
    requires Apart(s.epochs) && Apart(c.mid.epochs)
    ensures Apart(Effect(kind, cfg, s, op, now, c).0.epochs)
  {
    if op.Claim? {
      ApartClaim(kind, s, op, now, c);
    } else if op.Rotate? {
      if NewGeneration(c.mid.epochs, op.draws).Some? {
        ApartMoved(c.mid.epochs, op.owner, op.draws, now);
      }
    } else if op.Issue? || op.ReadGeneration? || op.ListActive? {
      var draws := if op.ListActive? then [] else op.draws;
      if TouchEpoch(c.mid.epochs, op.owner, now, draws).Some? {
        ApartTouched(c.mid.epochs, op.owner, now, draws);
      }
      if op.Issue? {
        IssueShape(kind, cfg, s, op, now, c);
      }
    }
  }

  // ----- what one call can change -----

  /** The same card: only the generation may have moved on. */
  predicate SameCard(a: Ticket, b: Ticket) {
    a.owner == b.owner && a.payload == b.payload && a.expiresAt == b.expiresAt
  }

  ghost predicate OnGeneration(s: Store, owner: string, g: nat) {
    owner in s.epochs && s.epochs[owner].generation == g
  }

  /** The calls that put an owner on a new generation. */
  predicate Renews(op: Op, r: Reply) {
    (op.Claim? && r.Granted?) || (op.Rotate? && r.Rotated?)
  }

  /** The call told its caller that its owner is on generation `g`. */
  predicate Reveals(op: Op, r: Reply, g: nat) {
    || (op.ReadGeneration? && r == Current(g))
    || (op.Rotate? && r.Rotated? && r.generation == g)
    || (op.Issue? && r.Issued? && r.ticket.generation == g)
  }

  ghost predicate TicketLaw(s: Store, op: Op, s': Store, r: Reply) {
    forall id :: id in s'.tickets ==>
      || (id in s.tickets && SameCard(s.tickets[id], s'.tickets[id]))
      || (r == Issued(id, s'.tickets[id]) && id in IdsOf(op))
  }

  ghost predicate GrantLaw(s: Store, op: Op, now: real, s': Store, r: Reply) {
    r.Granted? ==>
      && op.Claim? && r.id in s.tickets && r.ticket == s.tickets[r.id]
      && r.ticket.owner == op.owner && now < r.ticket.expiresAt
      && forall id :: id in s'.tickets ==> s'.tickets[id].owner != op.owner
  }

  ghost predicate EpochLaw(s: Store, op: Op, s': Store, r: Reply) {
    && (forall o :: o in s'.epochs ==> OnGeneration(s, o, s'.epochs[o].generation) || s'.epochs[o].generation in DrawsOf(op))
    && (Renews(op, r) ==> op.Rotate? || op.Claim?)
    && (Renews(op, r) ==> op.owner in s'.epochs && s'.epochs[op.owner].generation in DrawsOf(op))
    && (forall g :: Reveals(op, r, g) ==> !op.Reset? && OnGeneration(s', op.owner, g))
    && (op.Issue? && r.Issued? && op.expected.Some? ==>
          exists g: nat :: op.expected == Some(g) && (OnGeneration(s, op.owner, g) || g in DrawsOf(op)))
  }

  /** All that the run theorems need to know about a call. */
  ghost predicate Lawful(s: Store, op: Op, now: real, s': Store, r: Reply) {
    TicketLaw(s, op, s', r) && GrantLaw(s, op, now, s', r) && EpochLaw(s, op, s', r)
  }

  lemma StepLawful(kind: Kind, cfg: Settings, s: Store, op: Op, now: real, c: Choice, s': Store, r: Reply)
    requires Step(kind, cfg, s, op, now, c, s', r)
    ensures Lawful(s, op, now, s', r)
  {
    PruneWithin(cfg, s, now, c.mid);
    if op.Issue? {
      IssueLawful(kind, cfg, s, op, now, c);
    } else if op.Claim? {
      ClaimLawful(kind, s, op, now, c);
    } else if op.Rotate? {
      RotateLawful(kind, s, op, now, c);
    } else {
      OtherLawful(kind, cfg, s, op, now, c);
    }
  }

  lemma RotateLawful(kind: Kind, s: Store, op: Op, now: real, c: Choice)
    requires op.Rotate? && Within(c.mid, s)
    ensures var (s', r) := RotateEffect(kind, s, op, now, c); Lawful(s, op, now, s', r)
  {
    NewGenerationDrawn(c.mid.epochs, op.draws);
  }

  lemma OtherLawful(kind: Kind, cfg: Settings, s: Store, op: Op, now: real, c: Choice)
    requires (op.Discard? || op.ListActive? || op.ReadGeneration? || op.Reset?) && Within(c.mid, s)
    ensures var (s', r) := Effect(kind, cfg, s, op, now, c); Lawful(s, op, now, s', r)
  {
    if op.ReadGeneration? {
      NewGenerationDrawn(c.mid.epochs, op.draws);
    }
  }

  lemma IssueLawful(kind: Kind, cfg: Settings, s: Store, op: Op, now: real, c: Choice)
    requires op.Issue? && Within(c.mid, s)
    ensures var (s', r) := IssueEffect(kind, cfg, s, op, now, c); Lawful(s, op, now, s', r)
  {
    IssueShape(kind, cfg, s, op, now, c);
    var (s', r) := IssueEffect(kind, cfg, s, op, now, c);
    ShapedLawful(s, op, now, c, s', r);
  }

  lemma ShapedLawful(s: Store, op: Op, now: real, c: Choice, s': Store, r: Reply)
    requires op.Issue? && Within(c.mid, s) && IssueShaped(s, op, now, c, s', r)
    ensures Lawful(s, op, now, s', r)
  {
    NewGenerationDrawn(c.mid.epochs, op.draws);
    if r.Issued? && op.expected.Some? {
      var g: nat := op.expected.value;
      assert op.expected == Some(g);
    }
  }

  lemma ClaimLawful(kind: Kind, s: Store, op: Op, now: real, c: Choice)
    requires op.Claim? && Within(c.mid, s)
    ensures var (s', r) := ClaimEffect(kind, s, op, now, c); Lawful(s, op, now, s', r)
  {
    NewGenerationDrawn(c.mid.epochs, op.draws);
    if op.owner in c.mid.epochs {
      NewGenerationDrawn(c.mid.epochs[op.owner := Epoch(c.mid.epochs[op.owner].generation, now)], op.draws);
    }
  }

  // ----- runs -----

  datatype Event = Event(op: Op, now: real, choice: Choice, reply: Reply)

  /** A run of one of the stores from its empty state. */
  ghost predicate Run(kind: Kind, cfg: Settings, states: seq<Store>, events: seq<Event>) {
    && |states| == |events| + 1
    && states[0] == Store(map[], map[])
    && forall i :: 0 <= i < |events| ==>
         Step(kind, cfg, states[i], events[i].op, events[i].now, events[i].choice, states[i + 1], events[i].reply)
  }

  /** The same run seen only through the laws of its calls. */
  ghost predicate LawfulRun(states: seq<Store>, events: seq<Event>) {
    && |states| == |events| + 1
    && states[0] == Store(map[], map[])
    && forall i :: 0 <= i < |events| ==> LawAt(states, events, i)
  }

  ghost predicate LawAt(states: seq<Store>, events: seq<Event>, i: nat)
    requires |states| == |events| + 1 && i < |events|
  {
    Lawful(states[i], events[i].op, events[i].now, states[i + 1], events[i].reply)
  }

  lemma RunsAreLawful(kind: Kind, cfg: Settings, states: seq<Store>, events: seq<Event>)
    requires Run(kind, cfg, states, events)
    ensures LawfulRun(states, events)
  {
    forall i | 0 <= i < |events| ensures LawAt(states, events, i) {
      var e := events[i];
      StepLawful(kind, cfg, states[i], e.op, e.now, e.choice, states[i + 1], e.reply);
    }
  }

  /** No two calls of the run are served the same token or the same generation. */
  ghost predicate Fresh(events: seq<Event>) {
    forall i, j :: 0 <= i < j < |events| ==>
      IdsOf(events[i].op) !! IdsOf(events[j].op) && DrawsOf(events[i].op) !! DrawsOf(events[j].op)
  }

  ghost predicate Monotone(events: seq<Event>) {
    forall i, j :: 0 <= i <= j < |events| ==> events[i].now <= events[j].now
  }

  lemma {:induction false} EpochsAlways(kind: Kind, cfg: Settings, states: seq<Store>, events: seq<Event>, i: nat)
    requires Run(kind, cfg, states, events) && i <= |events|
    ensures Apart(states[i].epochs)
  {
    if i > 0 {
      EpochsAlways(kind, cfg, states, events, i - 1);
      var e := events[i - 1];
      EpochsStep(kind, cfg, states[i - 1], e.op, e.now, e.choice, states[i], e.reply);
    }
  }

  /** In every reachable state the store is within capacity and every ticket is bound to its owner's generation. */
  lemma {:induction false} InvAlways(kind: Kind, cfg: Settings, states: seq<Store>, events: seq<Event>, i: nat)
    requires cfg.Valid() && Run(kind, cfg, states, events) && Monotone(events) && 0 < i <= |events|
    ensures Inv(kind, cfg, states[i], events[i - 1].now)
  {
    var e := events[i - 1];
    var clock := if i == 1 then e.now else events[i - 2].now;
    if i == 1 {
      InvInitially(kind, cfg, clock);
    } else {
      InvAlways(kind, cfg, states, events, i - 1);
    }
    InvStep(kind, cfg, states[i - 1], clock, e.op, e.now, e.choice, states[i], e.reply);
  }

  /** A stored ticket is a card that an earlier call of the run issued. */
  lemma {:induction false} Provenance(states: seq<Store>, events: seq<Event>, i: nat, id: string) returns (j: nat)
    requires LawfulRun(states, events) && i <= |events| && id in states[i].tickets
    ensures j < i && events[j].reply.Issued? && events[j].reply.id == id && id in IdsOf(events[j].op)
    ensures SameCard(events[j].reply.ticket, states[i].tickets[id])
  {
    assert i > 0 && LawAt(states, events, i - 1);
    if id in states[i - 1].tickets && SameCard(states[i - 1].tickets[id], states[i].tickets[id]) {
      j := Provenance(states, events, i - 1, id);
    } else {
      j := i - 1;
    }
  }

  /** A ticket that has left the store never comes back. */
  lemma {:induction false} GoneForGood(states: seq<Store>, events: seq<Event>, issued: nat, i: nat, k: nat, id: string)
    requires LawfulRun(states, events) && Fresh(events)
    requires issued < i <= k <= |events| && id in IdsOf(events[issued].op) && id !in states[i].tickets
    ensures id !in states[k].tickets
    decreases k - i
  {
    if i < k {
      assert LawAt(states, events, i);
      assert id !in IdsOf(events[i].op);
      GoneForGood(states, events, issued, i + 1, k, id);
    }
  }

  ghost predicate GrantedAt(events: seq<Event>, i: nat, id: string) {
    i < |events| && events[i].reply.Granted? && events[i].reply.id == id
  }

  /** A grant hands out a card issued earlier, to the owner it was issued to, before its expiry. */
  lemma GrantIsIssued(kind: Kind, cfg: Settings, states: seq<Store>, events: seq<Event>, i: nat, id: string) returns (j: nat)
    requires Run(kind, cfg, states, events) && GrantedAt(events, i, id)
    ensures j < i && events[j].reply.Issued? && events[j].reply.id == id
    ensures SameCard(events[j].reply.ticket, events[i].reply.ticket)
    ensures events[i].op.Claim? && events[i].op.owner == events[j].reply.ticket.owner
    ensures events[i].now < events[j].reply.ticket.expiresAt
  {
    RunsAreLawful(kind, cfg, states, events);
    assert LawAt(states, events, i);
    j := Provenance(states, events, i, id);
  }

  /** A card keeps its owner for as long as it is stored. */
  lemma OwnerConstant(states: seq<Store>, events: seq<Event>, i: nat, j: nat, id: string)
    requires LawfulRun(states, events) && Fresh(events) && i <= j <= |events|
    requires id in states[i].tickets && id in states[j].tickets
    ensures SameCard(states[i].tickets[id], states[j].tickets[id])
  {
    var a := Provenance(states, events, i, id);
    var b := Provenance(states, events, j, id);
    assert a == b;
  }

  /** A grant buries the granted card and every card its owner had next to it. */
  lemma GrantBuries(states: seq<Store>, events: seq<Event>, j: nat, k: nat, a: string, b: string)
    requires LawfulRun(states, events) && Fresh(events) && j < k && GrantedAt(events, j, a)
    requires b in states[j].tickets && states[j].tickets[b].owner == events[j].reply.ticket.owner
    ensures !GrantedAt(events, k, b)
  {
    if k < |events| {
      assert LawAt(states, events, j) && LawAt(states, events, k);
      var issued := Provenance(states, events, j, b);
      assert b !in states[j + 1].tickets by {
        assert b !in IdsOf(events[j].op) && events[j].op.owner == states[j].tickets[b].owner;
      }
      GoneForGood(states, events, issued, j + 1, k, b);
    }
  }

  /** One-shot: no two calls of a run are granted the same ticket. */
  lemma GrantedAtMostOnce(kind: Kind, cfg: Settings, states: seq<Store>, events: seq<Event>, i: nat, j: nat, id: string)
    requires Run(kind, cfg, states, events) && Fresh(events)
    requires i < j && GrantedAt(events, i, id)
    ensures !GrantedAt(events, j, id)
  {
    RunsAreLawful(kind, cfg, states, events);
    assert LawAt(states, events, i);
    GrantBuries(states, events, i, j, id, id);
  }

  /** Of two tickets stored together for one owner, at most one is ever granted. */
  lemma RivalsNotBothGranted(kind: Kind, cfg: Settings, states: seq<Store>, events: seq<Event>, i: nat, j: nat, k: nat, a: string, b: string)
    requires Run(kind, cfg, states, events) && Fresh(events)
    requires i <= j < k < |events| && a != b
    requires a in states[i].tickets && b in states[i].tickets && states[i].tickets[a].owner == states[i].tickets[b].owner
    requires GrantedAt(events, j, a)
    ensures !GrantedAt(events, k, b)
  {
    RunsAreLawful(kind, cfg, states, events);
    assert LawAt(states, events, j) && LawAt(states, events, k);
    OwnerConstant(states, events, i, j, a);
    if b in states[j].tickets {
      OwnerConstant(states, events, i, j, b);
      GrantBuries(states, events, j, k, a, b);
    } else {
      var issued := Provenance(states, events, i, b);
      GoneForGood(states, events, issued, j, k, b);
    }
  }

  // ----- generations -----

  lemma {:induction false} GenerationDrawn(states: seq<Store>, events: seq<Event>, i: nat, owner: string) returns (j: nat)
    requires LawfulRun(states, events) && i <= |events| && owner in states[i].epochs
    ensures j < i && states[i].epochs[owner].generation in DrawsOf(events[j].op)
  {
    assert i > 0 && LawAt(states, events, i - 1);
    if OnGeneration(states[i - 1], owner, states[i].epochs[owner].generation) {
      j := GenerationDrawn(states, events, i - 1, owner);
    } else {
      j := i - 1;
    }
  }

  lemma {:induction false} LeftForGood(states: seq<Store>, events: seq<Event>, drawn: nat, i: nat, k: nat, owner: string, g: nat)
    requires LawfulRun(states, events) && Fresh(events)
    requires drawn < i <= k <= |events| && g in DrawsOf(events[drawn].op) && !OnGeneration(states[i], owner, g)
    ensures !OnGeneration(states[k], owner, g)
    decreases k - i
  {
    if i < k {
      assert LawAt(states, events, i);
      assert g !in DrawsOf(events[i].op);
      LeftForGood(states, events, drawn, i + 1, k, owner, g);
    }
  }

  /**
   * A slow caller is fenced: an issue that names a generation revealed before
   * the owner was rotated, by a reset of the session or by a claim, is refused.
   */
  lemma StaleIssueRefused(kind: Kind, cfg: Settings, states: seq<Store>, events: seq<Event>, i: nat, j: nat, k: nat, g: nat)
    requires Run(kind, cfg, states, events) && Fresh(events) && i < j < k < |events|
    requires Reveals(events[i].op, events[i].reply, g) && Renews(events[j].op, events[j].reply)
    requires events[k].op.Issue? && events[k].op.expected == Some(g)
    requires events[i].op.owner == events[j].op.owner == events[k].op.owner
    ensures !events[k].reply.Issued?
  {
    RunsAreLawful(kind, cfg, states, events);
    var owner := events[k].op.owner;
    assert LawAt(states, events, i);
    RevealedIsCurrent(kind, cfg, states[i], events[i].op, events[i].now, events[i].choice, states[i + 1], events[i].reply, g);
    var drawn := GenerationDrawn(states, events, i + 1, owner);
    assert LawAt(states, events, j);
    assert g !in DrawsOf(events[j].op) && g !in DrawsOf(events[k].op);
    LeftForGood(states, events, drawn, j + 1, k, owner, g);
    assert LawAt(states, events, k);
    IssuedIsCurrent(states[k], events[k].op, states[k + 1], events[k].reply, g);
  }

  /** What a caller is told is the generation its owner is on after the call. */
  lemma RevealedIsCurrent(kind: Kind, cfg: Settings, s: Store, op: Op, now: real, c: Choice, s': Store, r: Reply, g: nat)
    requires Step(kind, cfg, s, op, now, c, s', r) && Reveals(op, r, g)
    ensures OnGeneration(s', op.owner, g)
  {
    StepLawful(kind, cfg, s, op, now, c, s', r);
  }

  lemma IssuedIsCurrent(s: Store, op: Op, s': Store, r: Reply, g: nat)
    requires EpochLaw(s, op, s', r) && op.Issue? && op.expected == Some(g)
    ensures r.Issued? ==> OnGeneration(s, op.owner, g) || g in DrawsOf(op)
  {
  }

  // ----- exactly when a claim succeeds -----

  lemma TouchKeepsGenerations(epochs: map<string, Epoch>, owner: string, now: real)
    requires owner in epochs
    ensures LiveGenerations(epochs[owner := Epoch(epochs[owner].generation, now)]) == LiveGenerations(epochs)
  {
    var touched := epochs[owner := Epoch(epochs[owner].generation, now)];
    forall g | g in LiveGenerations(epochs) ensures g in LiveGenerations(touched) {
      var o :| o in epochs && epochs[o].generation == g;
      assert o in touched && touched[o].generation == g;
    }
  }

  /** A claim is granted exactly when the card is claimable by that owner now and the claim could be recorded. */
  lemma ClaimIff(kind: Kind, cfg: Settings, s: Store, op: Op, now: real, c: Choice, s': Store, r: Reply)
    requires cfg.Valid() && op.Claim? && Step(kind, cfg, s, op, now, c, s', r)
    ensures r.Granted? <==>
              && op.owner != "" && NormalizeId(op.id) != "" && NormalizeId(op.id) in Claimable(s, op.owner, now)
              && op.audited && NewGeneration(c.mid.epochs, op.draws).Some?
    ensures r.Granted? ==> r.id == NormalizeId(op.id) && r.ticket == Claimable(s, op.owner, now)[r.id]
  {
    PruneWithin(cfg, s, now, c.mid);
    ClaimEffectIff(kind, cfg, s, op, now, c);
  }

  lemma ClaimEffectIff(kind: Kind, cfg: Settings, s: Store, op: Op, now: real, c: Choice)
    requires cfg.Valid() && op.Claim? && Within(c.mid, s) && c.mid.tickets == InGrace(cfg, s.tickets, now)
    ensures var (s', r) := ClaimEffect(kind, s, op, now, c);
            var id := NormalizeId(op.id);
            && (r.Granted? <==>
                  && op.owner != "" && id != "" && id in Claimable(s, op.owner, now)
                  && op.audited && NewGeneration(c.mid.epochs, op.draws).Some?)
            && (r.Granted? ==> r.id == id && r.ticket == Claimable(s, op.owner, now)[r.id])
  {
    if op.owner in c.mid.epochs {
      TouchKeepsGenerations(c.mid.epochs, op.owner, now);
    }
  }
}
