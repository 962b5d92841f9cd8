/**
 * The confirmation ticket store of app/agent/confirmation.py as a value: what a
 * store holds, what each operation does to it, and the invariant it keeps.
 *
 * The application has two stores with one interface. They differ in what a
 * refused call leaves behind (a dict keeps the clean-up it already did, a
 * transaction rolls it back) and in what they do with expired tickets. `Kind`
 * selects between the two; everything else is common.
 */
module ConfirmationTickets {
  import opened Basics
  import opened Eviction
  import Text

  datatype Kind = Memory | Sqlite

  /** `ttl_seconds` and `max_entries`; the constructors raise both to at least 1. */
  datatype Settings = Settings(ttl: real, maxEntries: nat) {
    ghost predicate Valid() {
      ttl >= 1.0 && maxEntries >= 1
    }

    function EpochCap(): nat {
      if maxEntries * 4 < 32 then 32 else maxEntries * 4
    }
  }

  datatype Ticket = Ticket(owner: string, payload: string, expiresAt: real, generation: nat)

  datatype Epoch = Epoch(generation: nat, touchedAt: real)

  datatype Store = Store(tickets: map<string, Ticket>, epochs: map<string, Epoch>)

  /**
   * One call. `ids` and `draws` are what the token factory and the random
   * source would answer, in order; `remaining` is the time left of the caller's
   * deadline, if it gave one, and `late` tells whether that deadline passed
   * while the token was being produced. `payload` is None when the arguments
   * are not a JSON object. `audited` is false when the audit record of a claim
   * could not be written.
   */
  datatype Op =
    | Issue(owner: string, payload: Option<string>, expected: Option<int>, replace: bool,
            remaining: Option<real>, late: bool, ids: seq<string>, draws: seq<nat>)
    | Claim(owner: string, id: string, audited: bool, draws: seq<nat>)
    | Rotate(owner: string, preserve: bool, draws: seq<nat>)
    | Discard(owner: string, id: string)
    | ListActive(owner: string)
    | ReadGeneration(owner: string, draws: seq<nat>)
    | Reset

  datatype Reply =
    | Rejected
    | Issued(id: string, ticket: Ticket)
    | Granted(id: string, ticket: Ticket)
    | Lapsed(id: string, ticket: Ticket)
    | Rotated(revoked: nat, generation: nat)
    | Discarded(removed: bool)
    | Active(tickets: map<string, Ticket>)
    | Current(generation: nat)
    | Cleared

  /** How the two open choices of a call went: clean-up, then capacity eviction. */
  datatype Choice = Choice(mid: Store, gone: set<string>)

  // ----- random sources -----

  predicate IdChar(c: char) {
    'A' <= c <= 'Z' || 'a' <= c <= 'z' || '0' <= c <= '9' || c == '_' || c == '-'
  }

  /** `normalize_action_plan_id`: a URL-safe id of 16 to 256 characters, or "". */
  function NormalizeId(value: string): string {
    var token := Text.Strip(value);
    if 16 <= |token| <= 256 && forall c :: c in token ==> IdChar(c) then token else ""
  }

  /** The first of (at most eight) tokens that is valid and not in use. */
  function PickId(ids: seq<string>, taken: set<string>): Option<string> {
    if ids == [] then None
    else
      var id := NormalizeId(ids[0]);
      if id != "" && id !in taken then Some(id) else PickId(ids[1..], taken)
  }

  /** `secrets.randbits(63) or 1` */
  function NonZero(draw: nat): nat {
    if draw == 0 then 1 else draw
  }

  function PickGeneration(draws: seq<nat>, taken: set<nat>): Option<nat> {
    if draws == [] then None
    else if NonZero(draws[0]) !in taken then Some(NonZero(draws[0]))
    else PickGeneration(draws[1..], taken)
  }

  function FirstEight<T>(s: seq<T>): seq<T> {
    if |s| <= 8 then s else s[..8]
  }

  function LiveGenerations(epochs: map<string, Epoch>): set<nat> {
    set o | o in epochs :: epochs[o].generation
  }

  function NewGeneration(epochs: map<string, Epoch>, draws: seq<nat>): Option<nat> {
    PickGeneration(FirstEight(draws), LiveGenerations(epochs))
  }

  // ----- clean-up -----

  function Owners(tickets: map<string, Ticket>): set<string> {
    set id | id in tickets :: tickets[id].owner
  }

  function OwnedBy(tickets: map<string, Ticket>, owner: string): set<string> {
    set id | id in tickets && tickets[id].owner == owner
  }

  function Expiry(tickets: map<string, Ticket>): map<string, real> {
    map id | id in tickets :: tickets[id].expiresAt
  }

  function Touched(epochs: map<string, Epoch>): map<string, real> {
    map o | o in epochs :: epochs[o].touchedAt
  }

  /** Tickets still inside their grace window of one further lifetime. */
  function InGrace(cfg: Settings, tickets: map<string, Ticket>, now: real): map<string, Ticket> {
    map id | id in tickets && tickets[id].expiresAt + cfg.ttl > now :: tickets[id]
  }

  /** Epochs that an owner still needs or that were touched recently. */
  function RecentEpochs(cfg: Settings, epochs: map<string, Epoch>, active: set<string>, now: real): map<string, Epoch> {
    map o | o in epochs && (epochs[o].touchedAt > now - cfg.ttl * 2.0 || o in active) :: epochs[o]
  }

  /**
   * What `_prune_locked` and `_prune` may leave: tickets past their grace
   * window go; epochs of idle owners go when stale, and beyond the cap the
   * longest untouched idle ones go first.
   */
  ghost predicate Pruned(cfg: Settings, s: Store, now: real, mid: Store) {
    && mid.tickets == InGrace(cfg, s.tickets, now)
    && Capped(cfg, RecentEpochs(cfg, s.epochs, Owners(mid.tickets), now), Owners(mid.tickets), mid.epochs)
  }

  ghost predicate Capped(cfg: Settings, recent: map<string, Epoch>, active: set<string>, kept: map<string, Epoch>) {
    var gone := recent.Keys - kept.Keys;
    && kept == recent - gone
    && OldestRemoved(Touched(recent), recent.Keys - active, |recent.Keys| - cfg.EpochCap(), gone)
  }

  // ----- operations -----

  /** `_expires_at`: None when the caller's deadline has already passed. */
  function ExpiresAt(cfg: Settings, now: real, remaining: Option<real>): Option<real> {
    if remaining.None? then Some(now + cfg.ttl)
    else if remaining.value <= 0.0 then None
    else Some(now + if remaining.value < cfg.ttl then remaining.value else cfg.ttl)
  }

  /** `_owner_generation_locked(touch=True)`: the owner's epoch, created on demand. */
  function TouchEpoch(epochs: map<string, Epoch>, owner: string, now: real, draws: seq<nat>): Option<map<string, Epoch>> {
    if owner in epochs then Some(epochs[owner := Epoch(epochs[owner].generation, now)])
    else
      var g := NewGeneration(epochs, draws);
      if g.None? then None else Some(epochs[owner := Epoch(g.value, now)])
  }

  /** The owner's tickets of one generation: what `replace_active_ticket` replaces. */
  function Replaced(tickets: map<string, Ticket>, owner: string, generation: nat, replace: bool): set<string> {
    if replace then set id | id in tickets && tickets[id].owner == owner && tickets[id].generation == generation
    else {}
  }

  /** A refusal: the dictionaries keep what was already done, a transaction rolls back. */
  function Refuse(kind: Kind, before: Store, reached: Store): (Store, Reply) {
    (if kind.Memory? then reached else before, Rejected)
  }

  /** The stored tickets once the evicted and the replaced ones have made way for a new one. */
  function Insert(tickets: map<string, Ticket>, gone: set<string>, replaced: set<string>, id: string, ticket: Ticket): (after: map<string, Ticket>)
    ensures after.Keys == (tickets.Keys - gone - replaced) + {id}
    ensures after[id] == ticket
    ensures forall k :: k in after && k != id ==> k in tickets && after[k] == tickets[k]
  {
    (tickets - gone - replaced)[id := ticket]
  }

  function IssueEffect(kind: Kind, cfg: Settings, s: Store, op: Op, now: real, c: Choice): (Store, Reply)
    requires op.Issue?
  {
    if op.owner == "" || op.payload.None? || (op.expected.Some? && op.expected.value <= 0) then (s, Rejected)
    else
      var expiry := ExpiresAt(cfg, now, op.remaining);
      if expiry.None? then (s, Rejected)
      else
        var epochs := TouchEpoch(c.mid.epochs, op.owner, now, op.draws);
        if epochs.None? then Refuse(kind, s, c.mid)
        else
          var generation := epochs.value[op.owner].generation;
          var reached := Store(c.mid.tickets, epochs.value);
          var taken := if kind.Memory? then c.mid.tickets.Keys else c.mid.tickets.Keys - c.gone;
          var id := PickId(FirstEight(op.ids), taken);
          if (op.expected.Some? && op.expected.value != generation) || id.None? || op.late then Refuse(kind, s, reached)
          else
            var ticket := Ticket(op.owner, op.payload.value, expiry.value, generation);
            var replaced := Replaced(c.mid.tickets, op.owner, generation, op.replace);
            (Store(Insert(c.mid.tickets, c.gone, replaced, id.value, ticket), epochs.value), Issued(id.value, ticket))
  }

  /** Making room for one more ticket next to those that are not being replaced. */
  ghost predicate MakesRoom(cfg: Settings, tickets: map<string, Ticket>, replaced: set<string>, gone: set<string>) {
    OldestRemoved(Expiry(tickets), tickets.Keys - replaced, |tickets.Keys| - |replaced| + 1 - cfg.maxEntries, gone)
  }

  /** Tickets an issue may evict, and how many it must. */
  ghost predicate Evicts(cfg: Settings, op: Op, now: real, c: Choice)
    requires op.Issue?
  {
    var epochs := TouchEpoch(c.mid.epochs, op.owner, now, op.draws);
    epochs.Some? ==>
      MakesRoom(cfg, c.mid.tickets, Replaced(c.mid.tickets, op.owner, epochs.value[op.owner].generation, op.replace), c.gone)
  }

  function ClaimEffect(kind: Kind, s: Store, op: Op, now: real, c: Choice): (Store, Reply)
    requires op.Claim?
  {
    var mid := c.mid;
    var id := NormalizeId(op.id);
    if op.owner == "" || id == "" || id !in mid.tickets || mid.tickets[id].owner != op.owner
       || op.owner !in mid.epochs then Refuse(kind, s, mid)
    else
      var ticket := mid.tickets[id];
      var generation := mid.epochs[op.owner].generation;
      var touched := if kind.Memory? then mid.epochs[op.owner := Epoch(generation, now)] else mid.epochs;
      var next := NewGeneration(touched, op.draws);
      if ticket.generation != generation then Refuse(kind, s, Store(mid.tickets, touched))
      else if ticket.expiresAt <= now then (Store(mid.tickets - {id}, touched), Lapsed(id, ticket))
      else if next.None? || !op.audited then Refuse(kind, s, Store(mid.tickets, touched))
      else
        (Store(mid.tickets - OwnedBy(mid.tickets, op.owner), mid.epochs[op.owner := Epoch(next.value, now)]),
         Granted(id, ticket))
  }

  /** Moving an owner's unexpired tickets to a new generation; only the in-memory store drops the expired ones. */
  function Preserved(kind: Kind, tickets: map<string, Ticket>, owner: string, generation: nat, now: real): map<string, Ticket> {
    map id | id in tickets && (tickets[id].owner != owner || tickets[id].expiresAt > now || kind.Sqlite?) ::
      if tickets[id].owner == owner && tickets[id].expiresAt > now then tickets[id].(generation := generation)
      else tickets[id]
  }

  function RotateEffect(kind: Kind, s: Store, op: Op, now: real, c: Choice): (Store, Reply)
    requires op.Rotate?
  {
    if op.owner == "" then (s, Rejected)
    else
      var next := NewGeneration(c.mid.epochs, op.draws);
      if next.None? then Refuse(kind, s, c.mid)
      else
        var epochs := c.mid.epochs[op.owner := Epoch(next.value, now)];
        if op.preserve then
          (Store(Preserved(kind, c.mid.tickets, op.owner, next.value, now), epochs), Rotated(0, next.value))
        else
          var revoked := OwnedBy(c.mid.tickets, op.owner);
          (Store(c.mid.tickets - revoked, epochs), Rotated(|revoked|, next.value))
  }

  function DiscardEffect(kind: Kind, s: Store, op: Op, c: Choice): (Store, Reply)
    requires op.Discard?
  {
    var id := NormalizeId(op.id);
    // The SQLite store returns before its clean-up when there is nothing to look for.
    if kind.Sqlite? && (op.owner == "" || id == "") then (s, Discarded(false))
    else if op.owner != "" && id in c.mid.tickets && c.mid.tickets[id].owner == op.owner then
      (Store(c.mid.tickets - {id}, c.mid.epochs), Discarded(true))
    else (c.mid, Discarded(false))
  }

  /** The owner's tickets that could be claimed now. */
  function Claimable(s: Store, owner: string, now: real): map<string, Ticket> {
    map id | id in s.tickets && s.tickets[id].owner == owner && s.tickets[id].expiresAt > now
             && owner in s.epochs && s.tickets[id].generation == s.epochs[owner].generation :: s.tickets[id]
  }

  function ListEffect(s: Store, op: Op, now: real, c: Choice): (Store, Reply)
    requires op.ListActive?
  {
    if op.owner == "" then (s, Active(map[]))
    else if op.owner !in c.mid.epochs then (c.mid, Active(map[]))
    else
      var touched := c.mid.epochs[op.owner := Epoch(c.mid.epochs[op.owner].generation, now)];
      (Store(c.mid.tickets, touched), Active(Claimable(c.mid, op.owner, now)))
  }

  function ReadEffect(kind: Kind, s: Store, op: Op, now: real, c: Choice): (Store, Reply)
    requires op.ReadGeneration?
  {
    if op.owner == "" then (s, Rejected)
    else
      var epochs := TouchEpoch(c.mid.epochs, op.owner, now, op.draws);
      if epochs.None? then Refuse(kind, s, c.mid)
      else (Store(c.mid.tickets, epochs.value), Current(epochs.value[op.owner].generation))
  }

  /** The store and the answer after one call, given how its open choices went. */
  function Effect(kind: Kind, cfg: Settings, s: Store, op: Op, now: real, c: Choice): (Store, Reply) {
    if op.Issue? then IssueEffect(kind, cfg, s, op, now, c)
    else if op.Claim? then ClaimEffect(kind, s, op, now, c)
    else if op.Rotate? then RotateEffect(kind, s, op, now, c)
    else if op.Discard? then DiscardEffect(kind, s, op, c)
    else if op.ListActive? then ListEffect(s, op, now, c)
    else if op.ReadGeneration? then ReadEffect(kind, s, op, now, c)
    else (Store(map[], map[]), Cleared)
  }

  /** One call of either store. */
  ghost predicate Step(kind: Kind, cfg: Settings, s: Store, op: Op, now: real, c: Choice, s': Store, r: Reply) {
    && Pruned(cfg, s, now, c.mid)
    && (op.Issue? ==> Evicts(cfg, op, now, c))
    && (s', r) == Effect(kind, cfg, s, op, now, c)
  }
}
