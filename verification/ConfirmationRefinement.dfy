/**
 * The SQLite store grants what the in-memory store grants.
 *
 * Both stores are shown to refine one "desk" that knows only the cards which
 * can still be claimed. What the stores do differently (expired residue,
 * rolled-back refusals, stale generations) is invisible at the desk, because
 * capacity eviction of live cards does not depend on residue. Run side by side
 * on the same calls, the two stores therefore keep the same live cards and
 * grant the same claims.
 */
module ConfirmationRefinement {
  import opened Basics
  import opened Eviction
  import opened ConfirmationTickets
  import opened ConfirmationSafety

  datatype Card = Card(owner: string, payload: string, expiresAt: real)

  function CardOf(t: Ticket): Card {
    Card(t.owner, t.payload, t.expiresAt)
  }

  /** The cards not yet expired at `now`. */
  function Live(tickets: map<string, Ticket>, now: real): map<string, Card> {
    map id | id in tickets && tickets[id].expiresAt > now :: CardOf(tickets[id])
  }

  function HeldBy(cards: map<string, Card>, owner: string): set<string> {
    set id | id in cards && cards[id].owner == owner
  }

  function Deadlines(cards: map<string, Card>): map<string, real> {
    map id | id in cards :: cards[id].expiresAt
  }

  /** Capacity at the desk counts live cards only. */
  ghost predicate DeskIssue(max: nat, cards: map<string, Card>, op: Op, id: string, card: Card, cards': map<string, Card>)
    requires op.Issue?
  {
    exists gone: set<string> :: DeskEvicts(max, cards, op, gone, id, card, cards')
  }

  ghost predicate DeskEvicts(max: nat, cards: map<string, Card>, op: Op, gone: set<string>, id: string, card: Card, cards': map<string, Card>)
    requires op.Issue?
  {
    var removable := cards.Keys - Displaced(cards, op);
    && OldestRemoved(Deadlines(cards), removable, |removable| + 1 - max, gone)
    && cards' == (cards - gone - Displaced(cards, op))[id := card]
  }

  function Displaced(cards: map<string, Card>, op: Op): set<string>
    requires op.Issue?
  {
    if op.replace then HeldBy(cards, op.owner) else {}
  }

  ghost predicate DeskStep(max: nat, cards: map<string, Card>, op: Op, r: Reply, cards': map<string, Card>) {
    if op.Issue? && r.Issued? then DeskIssue(max, cards, op, r.id, CardOf(r.ticket), cards')
    else if (op.Claim? && r.Granted?) || (op.Rotate? && r.Rotated? && !op.preserve) then cards' == cards - HeldBy(cards, op.owner)
    else if op.Discard? && NormalizeId(op.id) in HeldBy(cards, op.owner) then cards' == cards - {NormalizeId(op.id)}
    else if op.Reset? then cards' == map[]
    else cards' == cards
  }

  // ----- each store refines the desk -----

  lemma PrunedLive(cfg: Settings, s: Store, now: real, mid: Store)
    requires cfg.Valid() && mid.tickets == InGrace(cfg, s.tickets, now)
    ensures Live(mid.tickets, now) == Live(s.tickets, now)
  {
  }

  lemma StoreRefinesDesk(kind: Kind, cfg: Settings, s: Store, clock: real, op: Op, now: real, c: Choice, s': Store, r: Reply)
    requires Inv(kind, cfg, s, clock) && clock <= now && Step(kind, cfg, s, op, now, c, s', r)
    ensures DeskStep(cfg.maxEntries, Live(s.tickets, now), op, r, Live(s'.tickets, now))
  {
    PruneWithin(cfg, s, now, c.mid);
    PrunedLive(cfg, s, now, c.mid);
    InvWithin(kind, cfg, s, clock, now, c.mid);
    if op.Issue? {
      IssueShape(kind, cfg, s, op, now, c);
      if r.Issued? {
        IssueExpiry(kind, cfg, s, op, now, c);
        IssueRefines(kind, cfg, op, now, c, s', r);
      }
    } else if op.Claim? {
      ClaimRefines(kind, cfg, s, op, now, c);
    } else if op.Rotate? {
      RotateRefines(kind, cfg, s, op, now, c);
    } else {
      OtherRefines(kind, cfg, s, op, now, c);
    }
  }

  lemma IssueExpiry(kind: Kind, cfg: Settings, s: Store, op: Op, now: real, c: Choice)
    requires cfg.Valid() && op.Issue?
    ensures var r := IssueEffect(kind, cfg, s, op, now, c).1; r.Issued? ==> r.ticket.expiresAt > now
  {
  }

  /** Live tickets of an owner all carry its current generation, so a replacing issue replaces them all. */
  lemma ReplacedLive(kind: Kind, cfg: Settings, mid: Store, now: real, op: Op, generation: nat)
    requires Inv(kind, cfg, mid, now) && op.Issue?
    requires op.owner in mid.epochs ==> generation == mid.epochs[op.owner].generation
    ensures var live := Live(mid.tickets, now);
            Replaced(mid.tickets, op.owner, generation, op.replace) * live.Keys == Displaced(live, op)
  {
    var live := Live(mid.tickets, now);
    forall id | id in Displaced(live, op) ensures id in Replaced(mid.tickets, op.owner, generation, op.replace) {
      assert Bound(kind, mid, now, mid.tickets[id]);
    }
  }

  /** What capacity eviction takes from the live cards, whatever residue the store still carries. */
  lemma EvictsLive(age: map<string, real>, deadline: map<string, real>, stored: set<string>, live: set<string>, replaced: set<string>, max: nat, gone: set<string>)
    requires replaced <= stored && live <= stored && stored <= age.Keys && live <= deadline.Keys
    requires forall id :: id in live ==> deadline[id] == age[id]
    requires forall a, b {:trigger age[a], age[b]} :: a in stored && a !in live && b in live ==> age[a] < age[b]
    requires OldestRemoved(age, stored - replaced, |stored| - |replaced| + 1 - max, gone)
    ensures OldestRemoved(deadline, live - replaced, |live - replaced| + 1 - max, gone * (live - replaced))
  {
    Fewer(replaced, stored);
    LiveEviction(age, deadline, live - replaced, stored - replaced, |stored| - |replaced| + 1 - max, 1 - max, gone);
  }

  lemma LiveAges(tickets: map<string, Ticket>, now: real)
    ensures var live := Live(tickets, now);
            && live.Keys <= tickets.Keys
            && (forall id :: id in live ==> Deadlines(live)[id] == Expiry(tickets)[id])
            && (forall a, b {:trigger Expiry(tickets)[a], Expiry(tickets)[b]} :: a in tickets && a !in live && b in live ==> Expiry(tickets)[a] < Expiry(tickets)[b])
  {
  }

  lemma IssueRefines(kind: Kind, cfg: Settings, op: Op, now: real, c: Choice, s': Store, r: Reply)
    requires Inv(kind, cfg, c.mid, now) && op.Issue? && Evicts(cfg, op, now, c)
    requires r.Issued? && IssueShaped(c.mid, op, now, c, s', r) && r.ticket.expiresAt > now
    ensures DeskIssue(cfg.maxEntries, Live(c.mid.tickets, now), op, r.id, CardOf(r.ticket), Live(s'.tickets, now))
  {
    var replaced := Replaced(c.mid.tickets, op.owner, r.ticket.generation, op.replace);
    ReplacedLive(kind, cfg, c.mid, now, op, r.ticket.generation);
    InsertLive(c.mid.tickets, now, c.gone, replaced, r.id, r.ticket);
    LiveAges(c.mid.tickets, now);
    InsertRefines(cfg.maxEntries, Expiry(c.mid.tickets), c.mid.tickets.Keys, Live(c.mid.tickets, now), op, c.gone, replaced, r.id, CardOf(r.ticket));
  }

  lemma InsertRefines(max: nat, age: map<string, real>, stored: set<string>, live: map<string, Card>, op: Op, gone: set<string>, replaced: set<string>, id: string, card: Card)
    requires op.Issue? && replaced <= stored && live.Keys <= stored <= age.Keys
    requires replaced * live.Keys == Displaced(live, op)
    requires forall id :: id in live ==> Deadlines(live)[id] == age[id]
    requires forall a, b {:trigger age[a], age[b]} :: a in stored && a !in live && b in live ==> age[a] < age[b]
    requires OldestRemoved(age, stored - replaced, |stored| - |replaced| + 1 - max, gone)
    ensures DeskIssue(max, live, op, id, card, (live - gone - replaced)[id := card])
  {
    EvictsLive(age, Deadlines(live), stored, live.Keys, replaced, max, gone);
    DeskWitness(max, live, live.Keys - replaced, op, gone, replaced, id, card);
  }

  lemma DeskWitness(max: nat, live: map<string, Card>, kept: set<string>, op: Op, gone: set<string>, replaced: set<string>, id: string, card: Card)
    requires op.Issue? && replaced * live.Keys == Displaced(live, op) && kept == live.Keys - replaced
    requires OldestRemoved(Deadlines(live), kept, |kept| + 1 - max, gone * kept)
    ensures DeskIssue(max, live, op, id, card, (live - gone - replaced)[id := card])
  {
    assert kept == live.Keys - Displaced(live, op);
    SameRemoval(live, kept, gone, replaced, Displaced(live, op));
    assert DeskEvicts(max, live, op, gone * kept, id, card, (live - gone - replaced)[id := card]);
  }

  lemma SameRemoval(live: map<string, Card>, kept: set<string>, gone: set<string>, replaced: set<string>, displaced: set<string>)
    requires replaced * live.Keys == displaced && kept == live.Keys - replaced
    ensures live - gone - replaced == live - (gone * kept) - displaced
  {
  }

  lemma InsertLive(tickets: map<string, Ticket>, now: real, gone: set<string>, replaced: set<string>, id: string, ticket: Ticket)
    requires ticket.expiresAt > now
    ensures Live(Insert(tickets, gone, replaced, id, ticket), now) == (Live(tickets, now) - gone - replaced)[id := CardOf(ticket)]
  {
  }

  /** `ResidueIrrelevant`, with the ages of the live keys read off the desk. */
  lemma LiveEviction(age: map<string, real>, deadline: map<string, real>, kept: set<string>, removable: set<string>, n: int, surplus: int, gone: set<string>)
    requires kept <= removable <= age.Keys && kept <= deadline.Keys && n == |removable| + surplus
    requires forall id :: id in kept ==> deadline[id] == age[id]
    requires forall a, b {:trigger age[a], age[b]} :: a in removable && a !in kept && b in kept ==> age[a] < age[b]
    requires OldestRemoved(age, removable, n, gone)
    ensures OldestRemoved(deadline, kept, |kept| + surplus, gone * kept)
  {
    var residue := removable - kept;
    assert removable == kept + residue;
    ResidueIrrelevant(age, kept, residue, surplus, gone);
    assert OldestRemoved(age, kept, |kept| + surplus, gone * kept);
  }

  lemma ClaimRefines(kind: Kind, cfg: Settings, s: Store, op: Op, now: real, c: Choice)
    requires cfg.Valid() && op.Claim? && Live(c.mid.tickets, now) == Live(s.tickets, now)
    ensures var (s', r) := ClaimEffect(kind, s, op, now, c);
            DeskStep(cfg.maxEntries, Live(s.tickets, now), op, r, Live(s'.tickets, now))
  {
    var (s', r) := ClaimEffect(kind, s, op, now, c);
    var live := Live(c.mid.tickets, now);
    if r.Granted? {
      assert Live(s'.tickets, now) == live - HeldBy(live, op.owner);
    } else {
      assert Live(s'.tickets, now) == live;
    }
  }

  lemma RotateRefines(kind: Kind, cfg: Settings, s: Store, op: Op, now: real, c: Choice)
    requires cfg.Valid() && op.Rotate? && Live(c.mid.tickets, now) == Live(s.tickets, now)
    ensures var (s', r) := RotateEffect(kind, s, op, now, c);
            DeskStep(cfg.maxEntries, Live(s.tickets, now), op, r, Live(s'.tickets, now))
  {
    var (s', r) := RotateEffect(kind, s, op, now, c);
    var live := Live(c.mid.tickets, now);
    if r.Rotated? && !op.preserve {
      assert Live(s'.tickets, now) == live - HeldBy(live, op.owner);
    } else {
      assert Live(s'.tickets, now) == live;
    }
  }

  lemma OtherRefines(kind: Kind, cfg: Settings, s: Store, op: Op, now: real, c: Choice)
    requires op.Discard? || op.ListActive? || op.ReadGeneration? || op.Reset?
    requires Inv(kind, cfg, c.mid, now) && Live(c.mid.tickets, now) == Live(s.tickets, now)
    ensures var (s', r) := Effect(kind, cfg, s, op, now, c);
            DeskStep(cfg.maxEntries, Live(s.tickets, now), op, r, Live(s'.tickets, now))
  {
    if op.Discard? {
      DiscardRefines(kind, cfg, s, op, now, c);
    }
  }

  lemma DiscardRefines(kind: Kind, cfg: Settings, s: Store, op: Op, now: real, c: Choice)
    requires op.Discard? && Inv(kind, cfg, c.mid, now) && Live(c.mid.tickets, now) == Live(s.tickets, now)
    ensures var (s', r) := DiscardEffect(kind, s, op, c);
            DeskStep(cfg.maxEntries, Live(s.tickets, now), op, r, Live(s'.tickets, now))
  {
    var (s', r) := DiscardEffect(kind, s, op, c);
    var live := Live(c.mid.tickets, now);
    var id := NormalizeId(op.id);
    if id in HeldBy(live, op.owner) {
      assert Bound(kind, c.mid, now, c.mid.tickets[id]);
      assert Live(s'.tickets, now) == live - {id};
    } else {
      assert Live(s'.tickets, now) == live;
    }
  }

  /** The desk leaves nothing open when no two live cards share a deadline. */
  lemma DeskDeterministic(max: nat, cards: map<string, Card>, op: Op, id: string, card: Card, a: map<string, Card>, b: map<string, Card>)
    requires op.Issue? && DistinctAges(Deadlines(cards), cards.Keys)
    requires DeskIssue(max, cards, op, id, card, a) && DeskIssue(max, cards, op, id, card, b)
    ensures a == b
  {
    var g: set<string> :| DeskEvicts(max, cards, op, g, id, card, a);
    var h: set<string> :| DeskEvicts(max, cards, op, h, id, card, b);
    EvictionForced(max, cards, op, g, h, id, card, a, b);
  }

  lemma EvictionForced(max: nat, cards: map<string, Card>, op: Op, g: set<string>, h: set<string>, id: string, card: Card, a: map<string, Card>, b: map<string, Card>)
    requires op.Issue? && DistinctAges(Deadlines(cards), cards.Keys)
    requires DeskEvicts(max, cards, op, g, id, card, a) && DeskEvicts(max, cards, op, h, id, card, b)
    ensures a == b
  {
    var removable := cards.Keys - Displaced(cards, op);
    SameEviction(Deadlines(cards), cards.Keys, removable, |removable| + 1 - max, g, h);
  }

  lemma SameEviction(age: map<string, real>, all: set<string>, removable: set<string>, surplus: int, g: set<string>, h: set<string>)
    requires removable <= all <= age.Keys && DistinctAges(age, all)
    requires OldestRemoved(age, removable, surplus, g) && OldestRemoved(age, removable, surplus, h)
    ensures g == h
  {
    assert DistinctAges(age, removable);
    OldestUnique(age, removable, surplus, g, h);
  }

  // ----- the two stores side by side -----

  /** A generation some caller holds: what each store told it, for one owner. */
  datatype Held = Held(owner: string, memory: nat, sqlite: nat)

  /** Both stores, what callers hold, and every token and generation drawn so far. */
  datatype Pair = Pair(memory: Store, sqlite: Store, held: seq<Held>, ids: set<string>, draws: set<nat>)

  /** The same call, each store being passed the generation it revealed itself. */
  ghost predicate SameCall(held: seq<Held>, m: Op, q: Op) {
    if m.Issue? then
      && q.Issue? && q == m.(expected := q.expected)
      && (|| (m.expected.None? && q.expected.None?)
          || (exists k :: 0 <= k < |held| && held[k].owner == m.owner
                && m.expected == Some(held[k].memory) && q.expected == Some(held[k].sqlite)))
    else m == q
  }

  ghost predicate HeldAlike(p: Pair) {
    forall h :: h in p.held ==>
      (OnGeneration(p.memory, h.owner, h.memory) <==> OnGeneration(p.sqlite, h.owner, h.sqlite))
  }

  ghost predicate Drawn(p: Pair) {
    && 0 !in p.draws && (forall h :: h in p.held ==> h.memory in p.draws && h.sqlite in p.draws)
    && LiveGenerations(p.memory.epochs) <= p.draws && LiveGenerations(p.sqlite.epochs) <= p.draws
    && p.memory.tickets.Keys <= p.ids && p.sqlite.tickets.Keys <= p.ids
  }

  ghost predicate Related(cfg: Settings, p: Pair, clock: real) {
    && Inv(Memory, cfg, p.memory, clock) && Inv(Sqlite, cfg, p.sqlite, clock)
    && Live(p.memory.tickets, clock) == Live(p.sqlite.tickets, clock)
    && HeldAlike(p) && Drawn(p)
  }

  /** The conditions of the comparison. */
  ghost predicate Fair(p: Pair, m: Op, now: real, cm: Choice, cq: Choice) {
    // fresh tokens and generations; the random source answers
    && IdsOf(m) !! p.ids && DrawsOf(m) !! p.draws
    && (m.Issue? || m.Claim? || m.Rotate? || m.ReadGeneration? ==> m.draws != [])
    // no two live cards expire at the same instant
    && DistinctAges(Deadlines(Live(p.memory.tickets, now)), Live(p.memory.tickets, now).Keys)
    // no epoch is pruned while a caller holds its generation
    && (forall h :: h in p.held ==>
          && (OnGeneration(p.memory, h.owner, h.memory) ==> h.owner in cm.mid.epochs)
          && (OnGeneration(p.sqlite, h.owner, h.sqlite) ==> h.owner in cq.mid.epochs))
  }

  /** The answers a caller acts on. */
  ghost predicate SameAnswer(m: Reply, q: Reply) {
    && (m.Granted? <==> q.Granted?) && (m.Granted? ==> m.id == q.id && SameCard(m.ticket, q.ticket))
    && (m.Issued? <==> q.Issued?) && (m.Issued? ==> m.id == q.id && SameCard(m.ticket, q.ticket))
    && (m.Rotated? <==> q.Rotated?) && (m.Current? <==> q.Current?)
    && (m.Active? <==> q.Active?)
    && (m.Active? && q.Active? ==> SameCards(m.tickets, q.tickets))
  }

  ghost predicate SameCards(a: map<string, Ticket>, b: map<string, Ticket>) {
    a.Keys == b.Keys && forall id :: id in a ==> SameCard(a[id], b[id])
  }

  function Learned(m: Op, rm: Reply, rq: Reply): seq<Held> {
    if rm.Current? && rq.Current? && m.ReadGeneration? then [Held(m.owner, rm.generation, rq.generation)]
    else if rm.Rotated? && rq.Rotated? && m.Rotate? then [Held(m.owner, rm.generation, rq.generation)]
    else if rm.Issued? && rq.Issued? && m.Issue? then [Held(m.owner, rm.ticket.generation, rq.ticket.generation)]
    else []
  }

  // ----- fresh draws decide alike -----

  lemma {:induction false} FreshId(ids: seq<string>, taken: set<string>)
    requires forall k :: 0 <= k < |ids| ==> NormalizeId(ids[k]) == "" || NormalizeId(ids[k]) !in taken
    ensures PickId(ids, taken) == PickId(ids, {})
  {
    if ids != [] {
      FreshId(ids[1..], taken);
    }
  }

  lemma FreshIds(op: Op, taken: set<string>)
    requires op.Issue? && IdsOf(op) !! taken
    ensures PickId(FirstEight(op.ids), taken) == PickId(FirstEight(op.ids), {})
  {
    forall k | 0 <= k < |FirstEight(op.ids)|
      ensures NormalizeId(FirstEight(op.ids)[k]) == "" || NormalizeId(FirstEight(op.ids)[k]) !in taken
    {
      assert FirstEight(op.ids)[k] == op.ids[k];
      assert NormalizeId(op.ids[k]) != "" ==> NormalizeId(op.ids[k]) in IdsOf(op);
    }
    FreshId(FirstEight(op.ids), taken);
  }

  lemma FreshGeneration(epochs: map<string, Epoch>, draws: seq<nat>)
    requires draws != [] && DrawsIn(draws) !! LiveGenerations(epochs)
    ensures NewGeneration(epochs, draws) == Some(NonZero(draws[0]))
  {
    assert NonZero(draws[0]) in DrawsIn(draws);
    assert FirstEight(draws)[0] == draws[0];
  }

  // ----- answers -----

  /** Under the invariant an owner can claim exactly its live cards. */
  lemma ClaimableIsLive(kind: Kind, cfg: Settings, s: Store, now: real, owner: string)
    requires Inv(kind, cfg, s, now)
    ensures Claimable(s, owner, now).Keys == HeldBy(Live(s.tickets, now), owner)
    ensures forall id :: id in Claimable(s, owner, now) ==> CardOf(Claimable(s, owner, now)[id]) == Live(s.tickets, now)[id]
  {
    forall id | id in HeldBy(Live(s.tickets, now), owner) ensures id in Claimable(s, owner, now) {
      assert Bound(kind, s, now, s.tickets[id]);
    }
  }

  /** A claim against fresh draws, seen from the desk. */
  lemma ClaimAnswer(kind: Kind, cfg: Settings, s: Store, op: Op, now: real, c: Choice, draws: set<nat>)
    requires Inv(kind, cfg, s, now) && Within(c.mid, s) && c.mid.tickets == InGrace(cfg, s.tickets, now)
    requires op.Claim? && op.draws != [] && DrawsOf(op) !! draws && LiveGenerations(c.mid.epochs) <= draws
    ensures var r := ClaimEffect(kind, s, op, now, c).1;
            var id := NormalizeId(op.id);
            && (r.Granted? <==> op.owner != "" && op.audited && id in HeldBy(Live(s.tickets, now), op.owner))
            && (r.Granted? ==> r.id == id && CardOf(r.ticket) == Live(s.tickets, now)[id])
            && (r.Granted? || r.Lapsed? || r.Rejected?)
  {
    ClaimEffectIff(kind, cfg, s, op, now, c);
    ClaimableIsLive(kind, cfg, s, now, op.owner);
    FreshGeneration(c.mid.epochs, op.draws);
  }

  lemma ClaimAlike(cfg: Settings, p: Pair, op: Op, now: real, cm: Choice, cq: Choice)
    requires Inv(Memory, cfg, p.memory, now) && Inv(Sqlite, cfg, p.sqlite, now)
    requires Within(cm.mid, p.memory) && cm.mid.tickets == InGrace(cfg, p.memory.tickets, now)
    requires Within(cq.mid, p.sqlite) && cq.mid.tickets == InGrace(cfg, p.sqlite.tickets, now)
    requires LiveGenerations(cm.mid.epochs) <= p.draws && LiveGenerations(cq.mid.epochs) <= p.draws
    requires Live(p.memory.tickets, now) == Live(p.sqlite.tickets, now)
    requires op.Claim? && op.draws != [] && DrawsOf(op) !! p.draws
    ensures SameAnswer(ClaimEffect(Memory, p.memory, op, now, cm).1, ClaimEffect(Sqlite, p.sqlite, op, now, cq).1)
  {
    ClaimAnswer(Memory, cfg, p.memory, op, now, cm, p.draws);
    ClaimAnswer(Sqlite, cfg, p.sqlite, op, now, cq, p.draws);
    var live := Live(p.memory.tickets, now);
    assert forall a: Ticket, b: Ticket :: CardOf(a) == CardOf(b) ==> SameCard(a, b);
  }

  lemma DrawnMid(cfg: Settings, p: Pair, cm: Choice, cq: Choice)
    requires Drawn(p) && Within(cm.mid, p.memory) && Within(cq.mid, p.sqlite)
    ensures LiveGenerations(cm.mid.epochs) <= p.draws && LiveGenerations(cq.mid.epochs) <= p.draws
    ensures cm.mid.tickets.Keys <= p.ids && cq.mid.tickets.Keys <= p.ids
  {
    WithinGenerations(cm.mid, p.memory);
    WithinGenerations(cq.mid, p.sqlite);
  }

  lemma WithinGenerations(mid: Store, s: Store)
    requires Within(mid, s)
    ensures LiveGenerations(mid.epochs) <= LiveGenerations(s.epochs)
  {
    forall g | g in LiveGenerations(mid.epochs) ensures g in LiveGenerations(s.epochs) {
      var o :| o in mid.epochs && mid.epochs[o].generation == g;
      assert s.epochs[o].generation == g;
    }
  }

  /** Whether an issue is accepted, in terms a caller can see. */
  ghost predicate Accepted(cfg: Settings, op: Op, now: real, current: bool)
    requires op.Issue?
  {
    && op.owner != "" && op.payload.Some? && (op.expected.Some? ==> op.expected.value > 0)
    && ExpiresAt(cfg, now, op.remaining).Some?
    && (op.expected.Some? ==> current)
    && PickId(FirstEight(op.ids), {}).Some? && !op.late
  }

  ghost predicate IssuedAs(cfg: Settings, op: Op, now: real, r: Reply)
    requires op.Issue? && r.Issued?
  {
    && Some(r.id) == PickId(FirstEight(op.ids), {}) && op.payload == Some(r.ticket.payload)
    && r.ticket.owner == op.owner && Some(r.ticket.expiresAt) == ExpiresAt(cfg, now, op.remaining)
  }

  lemma IssueAccepted(kind: Kind, cfg: Settings, s: Store, op: Op, now: real, c: Choice)
    requires op.Issue? && op.draws != []
    requires DrawsIn(op.draws) !! LiveGenerations(c.mid.epochs) && IdsOf(op) !! c.mid.tickets.Keys
    requires op.expected.Some? && op.expected.value > 0 ==> op.expected.value !in DrawsIn(op.draws)
    ensures var r := IssueEffect(kind, cfg, s, op, now, c).1;
            var current := op.expected.Some? && op.expected.value > 0 && OnGeneration(c.mid, op.owner, op.expected.value);
            && (r.Issued? <==> Accepted(cfg, op, now, current))
            && (if r.Issued? then IssuedAs(cfg, op, now, r) else r.Rejected?)
  {
    FreshGeneration(c.mid.epochs, op.draws);
    FreshIds(op, c.mid.tickets.Keys);
    FreshIds(op, c.mid.tickets.Keys - c.gone);
  }

  lemma ExpectedAlike(p: Pair, m: Op, q: Op, now: real, cm: Choice, cq: Choice)
    requires HeldAlike(p) && Drawn(p) && SameCall(p.held, m, q) && m.Issue? && m.expected.Some? && Fair(p, m, now, cm, cq)
    requires Within(cm.mid, p.memory) && Within(cq.mid, p.sqlite)
    ensures q.expected.Some? && m.expected.value > 0 && q.expected.value > 0
    ensures OnGeneration(cm.mid, m.owner, m.expected.value) <==> OnGeneration(cq.mid, m.owner, q.expected.value)
    ensures m.expected.value !in DrawsOf(m) && q.expected.value !in DrawsOf(m)
  {
    var k :| 0 <= k < |p.held| && p.held[k].owner == m.owner
             && m.expected == Some(p.held[k].memory) && q.expected == Some(p.held[k].sqlite);
    assert p.held[k] in p.held;
    var h := p.held[k];
    assert OnGeneration(p.memory, h.owner, h.memory) <==> OnGeneration(p.sqlite, h.owner, h.sqlite);
  }

  lemma IssueAlike(cfg: Settings, p: Pair, m: Op, q: Op, now: real, cm: Choice, cq: Choice)
    requires Drawn(p) && HeldAlike(p) && SameCall(p.held, m, q) && m.Issue? && Fair(p, m, now, cm, cq)
    requires Within(cm.mid, p.memory) && Within(cq.mid, p.sqlite)
    ensures SameAnswer(IssueEffect(Memory, cfg, p.memory, m, now, cm).1, IssueEffect(Sqlite, cfg, p.sqlite, q, now, cq).1)
  {
    DrawnMid(cfg, p, cm, cq);
    if m.expected.Some? {
      ExpectedAlike(p, m, q, now, cm, cq);
    }
    IssueAccepted(Memory, cfg, p.memory, m, now, cm);
    IssueAccepted(Sqlite, cfg, p.sqlite, q, now, cq);
    IssuedAlike(cfg, m, q, now, IssueEffect(Memory, cfg, p.memory, m, now, cm).1, IssueEffect(Sqlite, cfg, p.sqlite, q, now, cq).1);
  }

  lemma IssuedAlike(cfg: Settings, m: Op, q: Op, now: real, rm: Reply, rq: Reply)
    requires m.Issue? && q.Issue? && q == m.(expected := q.expected)
    requires (rm.Issued? || rm.Rejected?) && (rq.Issued? || rq.Rejected?) && (rm.Issued? <==> rq.Issued?)
    requires rm.Issued? ==> IssuedAs(cfg, m, now, rm)
    requires rq.Issued? ==> IssuedAs(cfg, q, now, rq)
    ensures SameAnswer(rm, rq)
  {
  }

  lemma RenewAlike(cfg: Settings, p: Pair, op: Op, now: real, cm: Choice, cq: Choice)
    requires (op.Rotate? || op.ReadGeneration?) && op.draws != [] && DrawsOf(op) !! p.draws
    requires LiveGenerations(cm.mid.epochs) <= p.draws && LiveGenerations(cq.mid.epochs) <= p.draws
    ensures SameAnswer(Effect(Memory, cfg, p.memory, op, now, cm).1, Effect(Sqlite, cfg, p.sqlite, op, now, cq).1)
  {
    FreshGeneration(cm.mid.epochs, op.draws);
    FreshGeneration(cq.mid.epochs, op.draws);
  }

  lemma ListedAlike(cfg: Settings, p: Pair, op: Op, now: real, cm: Choice, cq: Choice)
    requires Inv(Memory, cfg, p.memory, now) && Inv(Sqlite, cfg, p.sqlite, now) && op.ListActive?
    requires Within(cm.mid, p.memory) && cm.mid.tickets == InGrace(cfg, p.memory.tickets, now)
    requires Within(cq.mid, p.sqlite) && cq.mid.tickets == InGrace(cfg, p.sqlite.tickets, now)
    requires Live(p.memory.tickets, now) == Live(p.sqlite.tickets, now)
    ensures SameAnswer(ListEffect(p.memory, op, now, cm).1, ListEffect(p.sqlite, op, now, cq).1)
  {
    PrunedLive(cfg, p.memory, now, cm.mid);
    PrunedLive(cfg, p.sqlite, now, cq.mid);
    InvWithin(Memory, cfg, p.memory, now, now, cm.mid);
    InvWithin(Sqlite, cfg, p.sqlite, now, now, cq.mid);
    ClaimableIsLive(Memory, cfg, cm.mid, now, op.owner);
    ClaimableIsLive(Sqlite, cfg, cq.mid, now, op.owner);
    ListAlike(op, now, p.memory, cm, p.sqlite, cq);
  }

  lemma ListAlike(op: Op, now: real, m: Store, cm: Choice, q: Store, cq: Choice)
    requires op.ListActive?
    requires Claimable(cm.mid, op.owner, now).Keys == Claimable(cq.mid, op.owner, now).Keys
    requires forall id :: id in Claimable(cm.mid, op.owner, now) ==>
               CardOf(Claimable(cm.mid, op.owner, now)[id]) == CardOf(Claimable(cq.mid, op.owner, now)[id])
    ensures SameAnswer(ListEffect(m, op, now, cm).1, ListEffect(q, op, now, cq).1)
  {
    assert op.owner !in cm.mid.epochs ==> Claimable(cm.mid, op.owner, now) == map[];
    assert op.owner !in cq.mid.epochs ==> Claimable(cq.mid, op.owner, now) == map[];
  }

  // ----- held generations -----

  /** Short of a renewal by its owner or a reset, a generation that survived the clean-up stays. */
  lemma GenerationStays(kind: Kind, cfg: Settings, s: Store, op: Op, now: real, c: Choice, s': Store, r: Reply, owner: string, g: nat)
    requires Step(kind, cfg, s, op, now, c, s', r)
    requires OnGeneration(s, owner, g) && owner in c.mid.epochs
    requires !op.Reset? && !(Renews(op, r) && op.owner == owner)
    ensures OnGeneration(s', owner, g)
  {
    PruneWithin(cfg, s, now, c.mid);
    if op.Issue? {
      IssueShape(kind, cfg, s, op, now, c);
      ShapeStays(s, op, now, c, s', r, owner, g);
    } else {
      EffectStays(kind, cfg, s, op, now, c, owner, g);
    }
  }

  lemma ShapeStays(s: Store, op: Op, now: real, c: Choice, s': Store, r: Reply, owner: string, g: nat)
    requires op.Issue? && IssueShaped(s, op, now, c, s', r) && OnGeneration(s, owner, g) && OnGeneration(c.mid, owner, g)
    ensures OnGeneration(s', owner, g)
  {
  }

  lemma EffectStays(kind: Kind, cfg: Settings, s: Store, op: Op, now: real, c: Choice, owner: string, g: nat)
    requires !op.Issue? && !op.Reset? && OnGeneration(s, owner, g) && OnGeneration(c.mid, owner, g)
    ensures var (s', r) := Effect(kind, cfg, s, op, now, c);
            !(Renews(op, r) && op.owner == owner) ==> OnGeneration(s', owner, g)
  {
  }

  lemma GenerationLeaves(s: Store, op: Op, now: real, s': Store, r: Reply, owner: string, g: nat)
    requires Lawful(s, op, now, s', r) && g !in DrawsOf(op)
    requires (Renews(op, r) && op.owner == owner) || !OnGeneration(s, owner, g)
    ensures !OnGeneration(s', owner, g)
  {
  }

  lemma HeldStep(cfg: Settings, p: Pair, m: Op, q: Op, now: real, cm: Choice, cq: Choice, m': Store, rm: Reply, q': Store, rq: Reply, h: Held)
    requires HeldAlike(p) && Drawn(p) && SameCall(p.held, m, q) && Fair(p, m, now, cm, cq) && h in p.held
    requires Step(Memory, cfg, p.memory, m, now, cm, m', rm) && Step(Sqlite, cfg, p.sqlite, q, now, cq, q', rq)
    requires SameAnswer(rm, rq)
    ensures OnGeneration(m', h.owner, h.memory) <==> OnGeneration(q', h.owner, h.sqlite)
  {
    StepLawful(Memory, cfg, p.memory, m, now, cm, m', rm);
    StepLawful(Sqlite, cfg, p.sqlite, q, now, cq, q', rq);
    assert DrawsOf(m) == DrawsOf(q) && m.Reset? == q.Reset? && (m.Reset? || m.owner == q.owner);
    assert h.memory !in DrawsOf(m) && h.sqlite !in DrawsOf(q);
    if m.Reset? {
    } else if (Renews(m, rm) && m.owner == h.owner) || !OnGeneration(p.memory, h.owner, h.memory) {
      GenerationLeaves(p.memory, m, now, m', rm, h.owner, h.memory);
      GenerationLeaves(p.sqlite, q, now, q', rq, h.owner, h.sqlite);
    } else {
      GenerationStays(Memory, cfg, p.memory, m, now, cm, m', rm, h.owner, h.memory);
      GenerationStays(Sqlite, cfg, p.sqlite, q, now, cq, q', rq, h.owner, h.sqlite);
    }
  }

  // ----- the simulation step -----

  lemma LiveStep(cfg: Settings, p: Pair, clock: real, m: Op, q: Op, now: real, cm: Choice, cq: Choice, m': Store, rm: Reply, q': Store, rq: Reply)
    requires Inv(Memory, cfg, p.memory, clock) && Inv(Sqlite, cfg, p.sqlite, clock) && clock <= now
    requires Live(p.memory.tickets, now) == Live(p.sqlite.tickets, now)
    requires SameCall(p.held, m, q) && Fair(p, m, now, cm, cq)
    requires Step(Memory, cfg, p.memory, m, now, cm, m', rm) && Step(Sqlite, cfg, p.sqlite, q, now, cq, q', rq)
    requires SameAnswer(rm, rq)
    ensures Live(m'.tickets, now) == Live(q'.tickets, now)
  {
    StoreRefinesDesk(Memory, cfg, p.memory, clock, m, now, cm, m', rm);
    StoreRefinesDesk(Sqlite, cfg, p.sqlite, clock, q, now, cq, q', rq);
    SameDesk(cfg.maxEntries, p.held, Live(p.memory.tickets, now), m, q, rm, rq, Live(m'.tickets, now), Live(q'.tickets, now));
  }

  lemma SameDesk(max: nat, held: seq<Held>, cards: map<string, Card>, m: Op, q: Op, rm: Reply, rq: Reply, a: map<string, Card>, b: map<string, Card>)
    requires SameCall(held, m, q) && SameAnswer(rm, rq) && DistinctAges(Deadlines(cards), cards.Keys)
    requires DeskStep(max, cards, m, rm, a) && DeskStep(max, cards, q, rq, b)
    ensures a == b
  {
    if m.Issue? && rm.Issued? {
      var g: set<string> :| DeskEvicts(max, cards, q, g, rq.id, CardOf(rq.ticket), b);
      assert DeskEvicts(max, cards, m, g, rm.id, CardOf(rm.ticket), b);
      DeskDeterministic(max, cards, m, rm.id, CardOf(rm.ticket), a, b);
    }
  }

  lemma EffectsAlike(cfg: Settings, p: Pair, m: Op, q: Op, now: real, cm: Choice, cq: Choice)
    requires Inv(Memory, cfg, p.memory, now) && Inv(Sqlite, cfg, p.sqlite, now) && HeldAlike(p) && Drawn(p)
    requires Live(p.memory.tickets, now) == Live(p.sqlite.tickets, now)
    requires SameCall(p.held, m, q) && Fair(p, m, now, cm, cq)
    requires Within(cm.mid, p.memory) && cm.mid.tickets == InGrace(cfg, p.memory.tickets, now)
    requires Within(cq.mid, p.sqlite) && cq.mid.tickets == InGrace(cfg, p.sqlite.tickets, now)
    ensures SameAnswer(Effect(Memory, cfg, p.memory, m, now, cm).1, Effect(Sqlite, cfg, p.sqlite, q, now, cq).1)
  {
    if m.Issue? {
      IssueAlike(cfg, p, m, q, now, cm, cq);
    } else if m.ListActive? {
      ListedAlike(cfg, p, m, now, cm, cq);
    } else if m.Claim? || m.Rotate? || m.ReadGeneration? {
      DrawnMid(cfg, p, cm, cq);
      if m.Claim? {
        ClaimAlike(cfg, p, m, now, cm, cq);
      } else {
        RenewAlike(cfg, p, m, now, cm, cq);
      }
    }
  }

  lemma AnswersAlike(cfg: Settings, p: Pair, m: Op, q: Op, now: real, cm: Choice, cq: Choice, m': Store, rm: Reply, q': Store, rq: Reply)
    requires Inv(Memory, cfg, p.memory, now) && Inv(Sqlite, cfg, p.sqlite, now) && HeldAlike(p) && Drawn(p)
    requires Live(p.memory.tickets, now) == Live(p.sqlite.tickets, now)
    requires SameCall(p.held, m, q) && Fair(p, m, now, cm, cq)
    requires Step(Memory, cfg, p.memory, m, now, cm, m', rm) && Step(Sqlite, cfg, p.sqlite, q, now, cq, q', rq)
    ensures SameAnswer(rm, rq)
  {
    PruneWithin(cfg, p.memory, now, cm.mid);
    PruneWithin(cfg, p.sqlite, now, cq.mid);
    EffectsAlike(cfg, p, m, q, now, cm, cq);
  }

  function Next(p: Pair, m: Op, m': Store, rm: Reply, q': Store, rq: Reply): Pair {
    Pair(m', q', p.held + Learned(m, rm, rq), p.ids + IdsOf(m), p.draws + DrawsOf(m))
  }

  lemma LearnedAlike(p: Pair, m: Op, q: Op, now: real, m': Store, rm: Reply, q': Store, rq: Reply)
    requires SameCall(p.held, m, q)
    requires Lawful(p.memory, m, now, m', rm) && Lawful(p.sqlite, q, now, q', rq)
    ensures forall h :: h in Learned(m, rm, rq) ==> OnGeneration(m', h.owner, h.memory) && OnGeneration(q', h.owner, h.sqlite)
  {
    forall h | h in Learned(m, rm, rq) ensures OnGeneration(m', h.owner, h.memory) && OnGeneration(q', h.owner, h.sqlite) {
      assert Reveals(m, rm, h.memory) && Reveals(q, rq, h.sqlite);
    }
  }

  lemma LawDrawn(s: Store, op: Op, now: real, s': Store, r: Reply, draws: set<nat>)
    requires Lawful(s, op, now, s', r) && LiveGenerations(s.epochs) <= draws
    ensures LiveGenerations(s'.epochs) <= draws + DrawsOf(op)
  {
    forall g | g in LiveGenerations(s'.epochs) ensures g in draws + DrawsOf(op) {
      var o :| o in s'.epochs && s'.epochs[o].generation == g;
      if OnGeneration(s, o, g) {
        assert g in LiveGenerations(s.epochs);
      }
    }
  }

  lemma LawIds(s: Store, op: Op, s': Store, r: Reply, ids: set<string>)
    requires TicketLaw(s, op, s', r) && s.tickets.Keys <= ids
    ensures s'.tickets.Keys <= ids + IdsOf(op)
  {
  }

  lemma DrawnStep(p: Pair, m: Op, q: Op, now: real, m': Store, rm: Reply, q': Store, rq: Reply)
    requires Drawn(p) && SameCall(p.held, m, q)
    requires Lawful(p.memory, m, now, m', rm) && Lawful(p.sqlite, q, now, q', rq)
    ensures Drawn(Next(p, m, m', rm, q', rq))
  {
    assert DrawsOf(m) == DrawsOf(q) && IdsOf(m) == IdsOf(q);
    LawDrawn(p.memory, m, now, m', rm, p.draws);
    LawDrawn(p.sqlite, q, now, q', rq, p.draws);
    LawIds(p.memory, m, m', rm, p.ids);
    LawIds(p.sqlite, q, q', rq, p.ids);
    LearnedAlike(p, m, q, now, m', rm, q', rq);
    forall h | h in Learned(m, rm, rq) ensures h.memory in p.draws + DrawsOf(m) && h.sqlite in p.draws + DrawsOf(m) {
      assert h.memory in LiveGenerations(m'.epochs) && h.sqlite in LiveGenerations(q'.epochs);
    }
  }

  /**
   * One call on both stores: the answers agree on what is granted, issued and
   * listed, and the stores stay related.
   */
  lemma SideBySide(cfg: Settings, p: Pair, clock: real, m: Op, q: Op, now: real, cm: Choice, cq: Choice, m': Store, rm: Reply, q': Store, rq: Reply)
    requires Related(cfg, p, clock) && clock <= now
    requires SameCall(p.held, m, q) && Fair(p, m, now, cm, cq)
    requires Step(Memory, cfg, p.memory, m, now, cm, m', rm) && Step(Sqlite, cfg, p.sqlite, q, now, cq, q', rq)
    ensures SameAnswer(rm, rq)
    ensures Related(cfg, Next(p, m, m', rm, q', rq), now)
  {
    LiveLater(p.memory.tickets, p.sqlite.tickets, clock, now);
    InvWithin(Memory, cfg, p.memory, clock, now, p.memory);
    InvWithin(Sqlite, cfg, p.sqlite, clock, now, p.sqlite);
    AnswersAlike(cfg, p, m, q, now, cm, cq, m', rm, q', rq);
    LiveStep(cfg, p, clock, m, q, now, cm, cq, m', rm, q', rq);
    InvStep(Memory, cfg, p.memory, clock, m, now, cm, m', rm);
    InvStep(Sqlite, cfg, p.sqlite, clock, q, now, cq, q', rq);
    StepLawful(Memory, cfg, p.memory, m, now, cm, m', rm);
    StepLawful(Sqlite, cfg, p.sqlite, q, now, cq, q', rq);
    DrawnStep(p, m, q, now, m', rm, q', rq);
    LearnedAlike(p, m, q, now, m', rm, q', rq);
    forall h | h in p.held + Learned(m, rm, rq)
      ensures OnGeneration(m', h.owner, h.memory) <==> OnGeneration(q', h.owner, h.sqlite)
    {
      if h in p.held {
        HeldStep(cfg, p, m, q, now, cm, cq, m', rm, q', rq, h);
      }
    }
  }

  lemma LiveLater(a: map<string, Ticket>, b: map<string, Ticket>, clock: real, now: real)
    requires Live(a, clock) == Live(b, clock) && clock <= now
    ensures Live(a, now) == Live(b, now)
  {
    LiveIncluded(a, b, clock, now);
    LiveIncluded(b, a, clock, now);
  }

  lemma LiveIncluded(a: map<string, Ticket>, b: map<string, Ticket>, clock: real, now: real)
    requires Live(a, clock) == Live(b, clock) && clock <= now
    ensures forall id :: id in Live(a, now) ==> id in Live(b, now) && Live(b, now)[id] == Live(a, now)[id]
  {
    forall id | id in Live(a, now) ensures id in Live(b, now) && Live(b, now)[id] == Live(a, now)[id] {
      LiveAt(a, now, id);
      LiveAt(a, clock, id);
      LiveAt(b, clock, id);
      LiveAt(b, now, id);
    }
  }

  lemma LiveAt(tickets: map<string, Ticket>, now: real, id: string)
    ensures id in Live(tickets, now) <==> id in tickets && tickets[id].expiresAt > now
    ensures id in Live(tickets, now) ==> Live(tickets, now)[id] == CardOf(tickets[id])
  {
  }

  // ----- whole runs -----

  datatype Call = Call(m: Op, q: Op, now: real, cm: Choice, cq: Choice, rm: Reply, rq: Reply)

  ghost predicate JointStep(cfg: Settings, p: Pair, c: Call, p': Pair) {
    && SameCall(p.held, c.m, c.q) && Fair(p, c.m, c.now, c.cm, c.cq)
    && Step(Memory, cfg, p.memory, c.m, c.now, c.cm, p'.memory, c.rm)
    && Step(Sqlite, cfg, p.sqlite, c.q, c.now, c.cq, p'.sqlite, c.rq)
    && p' == Next(p, c.m, p'.memory, c.rm, p'.sqlite, c.rq)
  }

  const EMPTY := Pair(Store(map[], map[]), Store(map[], map[]), [], {}, {})

  /** Both stores driven from empty by one program, at non-decreasing times. */
  ghost predicate JointRun(cfg: Settings, pairs: seq<Pair>, calls: seq<Call>) {
    && |pairs| == |calls| + 1 && pairs[0] == EMPTY
    && (forall i :: 0 <= i < |calls| ==> JointStep(cfg, pairs[i], calls[i], pairs[i + 1]))
    && (forall i :: 0 < i < |calls| ==> calls[i - 1].now <= calls[i].now)
  }

  /** What a joint step preserves, stated without the stores' inner workings. */
  ghost predicate Simulates(cfg: Settings, p: Pair, c: Call, p': Pair) {
    forall clock: real :: Related(cfg, p, clock) && clock <= c.now ==> Related(cfg, p', c.now) && SameAnswer(c.rm, c.rq)
  }

  lemma JointStepSimulates(cfg: Settings, p: Pair, c: Call, p': Pair)
    requires JointStep(cfg, p, c, p')
    ensures Simulates(cfg, p, c, p')
  {
    forall clock: real | Related(cfg, p, clock) && clock <= c.now
      ensures Related(cfg, p', c.now) && SameAnswer(c.rm, c.rq)
    {
      SideBySide(cfg, p, clock, c.m, c.q, c.now, c.cm, c.cq, p'.memory, c.rm, p'.sqlite, c.rq);
    }
  }

  ghost predicate SimulatedRun(cfg: Settings, pairs: seq<Pair>, calls: seq<Call>) {
    && |pairs| == |calls| + 1 && pairs[0] == EMPTY
    && (forall i :: 0 <= i < |calls| ==> Simulates(cfg, pairs[i], calls[i], pairs[i + 1]))
    && (forall i :: 0 < i < |calls| ==> calls[i - 1].now <= calls[i].now)
  }

  lemma {:induction false} RelatedAlways(cfg: Settings, pairs: seq<Pair>, calls: seq<Call>, i: nat)
    requires cfg.Valid() && SimulatedRun(cfg, pairs, calls) && i < |calls|
    ensures SameAnswer(calls[i].rm, calls[i].rq) && Related(cfg, pairs[i + 1], calls[i].now)
  {
    if i == 0 {
      assert Related(cfg, pairs[0], calls[0].now);
    } else {
      RelatedAlways(cfg, pairs, calls, i - 1);
      assert Related(cfg, pairs[i], calls[i - 1].now);
    }
    assert Simulates(cfg, pairs[i], calls[i], pairs[i + 1]);
  }

  /** At every point of a joint run both stores hold the same live cards and have answered alike. */
  lemma StoresAgree(cfg: Settings, pairs: seq<Pair>, calls: seq<Call>, i: nat)
    requires cfg.Valid() && JointRun(cfg, pairs, calls) && i < |calls|
    ensures SameAnswer(calls[i].rm, calls[i].rq)
    ensures Live(pairs[i + 1].memory.tickets, calls[i].now) == Live(pairs[i + 1].sqlite.tickets, calls[i].now)
  {
    forall j | 0 <= j < |calls| ensures Simulates(cfg, pairs[j], calls[j], pairs[j + 1]) {
      JointStepSimulates(cfg, pairs[j], calls[j], pairs[j + 1]);
    }
    RelatedAlways(cfg, pairs, calls, i);
  }
}
