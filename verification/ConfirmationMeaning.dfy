/**
 * What each call of a ticket store means to its caller, said of the tickets,
 * generations and clocks alone, and deadlines over whole runs.
 */
module ConfirmationMeaning {
  import opened Basics
  import opened ConfirmationTickets
  import opened ConfirmationSafety
  import Eviction
  import Text

  // ----- clean-up -----

  /** The ticket is within one further lifetime of its deadline. */
  predicate Stays(cfg: Settings, t: Ticket, now: real) {
    now < t.expiresAt + cfg.ttl
  }

  predicate HasTicket(cfg: Settings, s: Store, owner: string, now: real) {
    exists id :: id in s.tickets && s.tickets[id].owner == owner && Stays(cfg, s.tickets[id], now)
  }

  /** What a clean-up keeps: tickets in their grace window; epochs that are needed, or fresh while there is room. */
  lemma PruneKeeps(cfg: Settings, s: Store, now: real, mid: Store)
    requires Pruned(cfg, s, now, mid)
    ensures forall id :: id in mid.tickets <==> id in s.tickets && Stays(cfg, s.tickets[id], now)
    ensures forall id :: id in mid.tickets ==> mid.tickets[id] == s.tickets[id]
    ensures forall o :: o in mid.epochs ==> o in s.epochs && mid.epochs[o] == s.epochs[o]
    ensures forall o :: o in s.epochs && HasTicket(cfg, s, o, now) ==> o in mid.epochs
    ensures forall o :: o in s.epochs && !HasTicket(cfg, s, o, now) && s.epochs[o].touchedAt <= now - 2.0 * cfg.ttl ==> o !in mid.epochs
  {
    PruneWithin(cfg, s, now, mid);
    forall o | o in s.epochs && HasTicket(cfg, s, o, now) ensures o in mid.epochs {
      var id :| id in s.tickets && s.tickets[id].owner == o && Stays(cfg, s.tickets[id], now);
      assert mid.tickets[id].owner == o;
    }
    forall o | o in s.epochs && !HasTicket(cfg, s, o, now) && s.epochs[o].touchedAt <= now - 2.0 * cfg.ttl ensures o !in mid.epochs {
      assert o !in Owners(mid.tickets);
    }
  }

  /** The epochs that could be kept: of owners with a ticket, or touched within two lifetimes. */
  function Fresh(cfg: Settings, s: Store, now: real): set<string> {
    set o | o in s.epochs && (s.epochs[o].touchedAt > now - 2.0 * cfg.ttl || HasTicket(cfg, s, o, now))
  }

  lemma TicketOwners(cfg: Settings, s: Store, now: real, mid: Store, o: string)
    requires mid.tickets == InGrace(cfg, s.tickets, now)
    ensures HasTicket(cfg, s, o, now) <==> o in Owners(mid.tickets)
  {
    if HasTicket(cfg, s, o, now) {
      var id :| id in s.tickets && s.tickets[id].owner == o && Stays(cfg, s.tickets[id], now);
      assert mid.tickets[id].owner == o;
    }
    if o in Owners(mid.tickets) {
      var id :| id in mid.tickets && mid.tickets[id].owner == o;
      assert Stays(cfg, s.tickets[id], now);
    }
  }

  lemma FreshIsRecent(cfg: Settings, s: Store, now: real, mid: Store)
    requires Pruned(cfg, s, now, mid)
    ensures Fresh(cfg, s, now) == RecentEpochs(cfg, s.epochs, Owners(mid.tickets), now).Keys
    ensures forall o :: HasTicket(cfg, s, o, now) <==> o in Owners(mid.tickets)
  {
    forall o ensures HasTicket(cfg, s, o, now) <==> o in Owners(mid.tickets) {
      TicketOwners(cfg, s, now, mid, o);
    }
  }

  /**
   * A fresh epoch goes only if there are more than 32, and more than four for each
   * ticket there is room for, and then the least recently touched go first.
   */
  lemma PruneCaps(cfg: Settings, s: Store, now: real, mid: Store, o: string)
    requires Pruned(cfg, s, now, mid) && o in Fresh(cfg, s, now) && o !in mid.epochs
    ensures |Fresh(cfg, s, now)| > 32 && |Fresh(cfg, s, now)| > 4 * cfg.maxEntries && !HasTicket(cfg, s, o, now)
    ensures forall p :: p in mid.epochs && !HasTicket(cfg, s, p, now) ==> p in s.epochs && s.epochs[o].touchedAt <= s.epochs[p].touchedAt
  {
    FreshIsRecent(cfg, s, now, mid);
    PruneWithin(cfg, s, now, mid);
    var active := Owners(mid.tickets);
    var recent := RecentEpochs(cfg, s.epochs, active, now);
    assert o in recent.Keys - mid.epochs.Keys;
    forall p | p in mid.epochs && !HasTicket(cfg, s, p, now) ensures p in s.epochs && s.epochs[o].touchedAt <= s.epochs[p].touchedAt {
      assert p !in active && p in recent;
      assert Touched(recent)[o] <= Touched(recent)[p];
    }
  }

  /** And no more epochs are left than that, unless all that are left have tickets. */
  lemma PruneBounds(cfg: Settings, s: Store, now: real, mid: Store, o: string)
    requires Pruned(cfg, s, now, mid) && o in mid.epochs && !HasTicket(cfg, s, o, now)
    ensures |mid.epochs.Keys| <= 32 || |mid.epochs.Keys| <= 4 * cfg.maxEntries
  {
    FreshIsRecent(cfg, s, now, mid);
    var active := Owners(mid.tickets);
    var recent := RecentEpochs(cfg, s.epochs, active, now);
    var gone := recent.Keys - mid.epochs.Keys;
    assert mid.epochs.Keys == recent.Keys - gone;
    Eviction.Fewer(gone, recent.Keys);
    assert o in recent.Keys - active && o !in gone;
    Eviction.Fewer(gone, recent.Keys - active);
    assert |recent.Keys - active - gone| > 0;
  }

  // ----- issuing -----

  predicate UrlSafe(id: string) {
    16 <= |id| <= 256 && forall c :: c in id ==> 'A' <= c <= 'Z' || 'a' <= c <= 'z' || '0' <= c <= '9' || c == '-' || c == '_'
  }

  /** A token that can be used: URL-safe once stripped, and not taken. */
  predicate Usable(token: string, taken: set<string>) {
    UrlSafe(Text.Strip(token)) && Text.Strip(token) !in taken
  }

  lemma NormalizedId(token: string)
    ensures NormalizeId(token) == if UrlSafe(Text.Strip(token)) then Text.Strip(token) else ""
  {
  }

  /** The first usable one of the tokens, if there is one. */
  lemma {:induction false} PickIff(ids: seq<string>, taken: set<string>)
    ensures PickId(ids, taken).Some? <==> exists k :: 0 <= k < |ids| && Usable(ids[k], taken)
    ensures PickId(ids, taken).Some? ==>
              exists k :: 0 <= k < |ids| && PickId(ids, taken).value == Text.Strip(ids[k]) && Usable(ids[k], taken) &&
                          forall j :: 0 <= j < k ==> !Usable(ids[j], taken)
  {
    if ids != [] {
      NormalizedId(ids[0]);
      if !Usable(ids[0], taken) {
        PickIff(ids[1..], taken);
        assert forall k :: 0 <= k < |ids| - 1 ==> ids[1..][k] == ids[k + 1];
        if PickId(ids, taken).Some? {
          var k :| 0 <= k < |ids[1..]| && PickId(ids, taken).value == Text.Strip(ids[1..][k]) && Usable(ids[1..][k], taken) &&
                   forall j :: 0 <= j < k ==> !Usable(ids[1..][j], taken);
          assert ids[k + 1] == ids[1..][k];
          assert forall j :: 1 <= j < k + 1 ==> ids[j] == ids[1..][j - 1];
        }
      }
    }
  }

  /** A draw of zero stands for one; it can be used if no owner is on that generation. */
  predicate FreeDraw(draw: nat, epochs: map<string, Epoch>) {
    forall o :: o in epochs ==> epochs[o].generation != if draw == 0 then 1 else draw
  }

  lemma FreeDrawIff(draw: nat, epochs: map<string, Epoch>)
    ensures FreeDraw(draw, epochs) <==> NonZero(draw) !in LiveGenerations(epochs)
  {
    if NonZero(draw) in LiveGenerations(epochs) {
      var o :| o in epochs && epochs[o].generation == NonZero(draw);
    }
    if !FreeDraw(draw, epochs) {
      var o :| o in epochs && epochs[o].generation == NonZero(draw);
      assert epochs[o].generation in LiveGenerations(epochs);
    }
  }

  lemma {:induction false} DrawIff(draws: seq<nat>, epochs: map<string, Epoch>)
    ensures PickGeneration(draws, LiveGenerations(epochs)).Some? <==> exists k :: 0 <= k < |draws| && FreeDraw(draws[k], epochs)
  {
    if draws != [] {
      FreeDrawIff(draws[0], epochs);
      DrawIff(draws[1..], epochs);
      assert forall k :: 0 <= k < |draws| - 1 ==> draws[1..][k] == draws[k + 1];
    }
  }

  /** One of the first eight draws is free. */
  predicate CanDraw(draws: seq<nat>, epochs: map<string, Epoch>) {
    exists k :: 0 <= k < |draws| && k < 8 && FreeDraw(draws[k], epochs)
  }

  lemma CanDrawIff(draws: seq<nat>, epochs: map<string, Epoch>)
    ensures NewGeneration(epochs, draws).Some? <==> CanDraw(draws, epochs)
  {
    DrawIff(FirstEight(draws), epochs);
    assert forall k :: 0 <= k < |FirstEight(draws)| ==> FirstEight(draws)[k] == draws[k];
  }

  /** One of the first eight tokens is usable. */
  predicate CanName(ids: seq<string>, taken: set<string>) {
    exists k :: 0 <= k < |ids| && k < 8 && Usable(ids[k], taken)
  }

  lemma CanNameIff(ids: seq<string>, taken: set<string>)
    ensures PickId(FirstEight(ids), taken).Some? <==> CanName(ids, taken)
  {
    PickIff(FirstEight(ids), taken);
    assert forall k :: 0 <= k < |FirstEight(ids)| ==> FirstEight(ids)[k] == ids[k];
  }

  /** The ids that a new ticket must avoid: the evicted ones are free again in SQLite only. */
  function Taken(kind: Kind, c: Choice): set<string> {
    if kind.Memory? then c.mid.tickets.Keys else c.mid.tickets.Keys - c.gone
  }

  /** The arguments and the deadline are in order. */
  predicate WellAsked(op: Op)
    requires op.Issue?
  {
    && op.owner != "" && op.payload.Some? && (op.expected.Some? ==> op.expected.value > 0)
    && (op.remaining.Some? ==> op.remaining.value > 0.0) && !op.late
  }

  /** The epochs, with the owner's touched now. */
  function Renewed(epochs: map<string, Epoch>, owner: string, now: real): map<string, Epoch>
    requires owner in epochs
  {
    epochs[owner := Epoch(epochs[owner].generation, now)]
  }

  /** The owner was drawn a generation, and nothing else changed. */
  predicate DrawnFor(epochs: map<string, Epoch>, owner: string, now: real, after: map<string, Epoch>) {
    owner in after && after[owner].touchedAt == now && after - {owner} == epochs - {owner}
  }

  /** What a refused issue leaves: the dictionaries keep the clean-up and the owner's touched epoch, if it came to that. */
  ghost predicate RefusedIssue(kind: Kind, s: Store, op: Op, now: real, mid: Store, s': Store)
    requires op.Issue?
  {
    if kind.Sqlite? || !WellAsked(op.(late := false)) then s' == s
    else
      && s'.tickets == mid.tickets
      && if op.owner in mid.epochs then s'.epochs == Renewed(mid.epochs, op.owner, now)
         else if CanDraw(op.draws, mid.epochs) then DrawnFor(mid.epochs, op.owner, now, s'.epochs)
         else s'.epochs == mid.epochs
  }

  /** Exactly when a ticket is issued: to an owner that is, or can be put, on the generation the caller expects. */
  lemma IssueIff(kind: Kind, cfg: Settings, s: Store, op: Op, now: real, c: Choice, s': Store, r: Reply)
    requires op.Issue? && Step(kind, cfg, s, op, now, c, s', r)
    ensures op.owner in c.mid.epochs ==>
              (r.Issued? <==> && WellAsked(op) && CanName(op.ids, Taken(kind, c))
                              && (op.expected.Some? ==> op.expected.value == c.mid.epochs[op.owner].generation))
    ensures op.owner !in c.mid.epochs && op.expected.None? ==>
              (r.Issued? <==> WellAsked(op) && CanName(op.ids, Taken(kind, c)) && CanDraw(op.draws, c.mid.epochs))
    ensures !r.Issued? ==> r.Rejected? && RefusedIssue(kind, s, op, now, c.mid, s')
  {
    IssueEffectIff(kind, cfg, s, op, now, c);
  }

  lemma IssueEffectIff(kind: Kind, cfg: Settings, s: Store, op: Op, now: real, c: Choice)
    requires op.Issue?
    ensures var (s', r) := IssueEffect(kind, cfg, s, op, now, c);
            && (op.owner in c.mid.epochs ==>
                  (r.Issued? <==> && WellAsked(op) && CanName(op.ids, Taken(kind, c))
                                  && (op.expected.Some? ==> op.expected.value == c.mid.epochs[op.owner].generation)))
            && (op.owner !in c.mid.epochs && op.expected.None? ==>
                  (r.Issued? <==> WellAsked(op) && CanName(op.ids, Taken(kind, c)) && CanDraw(op.draws, c.mid.epochs)))
            && (!r.Issued? ==> r.Rejected? && RefusedIssue(kind, s, op, now, c.mid, s'))
  {
    CanNameIff(op.ids, Taken(kind, c));
    CanDrawIff(op.draws, c.mid.epochs);
  }

  /**
   * What is issued: the caller's payload, to the caller, for the lifetime of the
   * store or what is left of the caller's deadline, whichever ends first. A
   * replacing issue leaves the owner no other ticket of that generation.
   */
  lemma IssueMeans(kind: Kind, cfg: Settings, s: Store, op: Op, now: real, c: Choice, s': Store, r: Reply)
    requires op.Issue? && Step(kind, cfg, s, op, now, c, s', r) && r.Issued?
    ensures r.ticket.owner == op.owner && op.payload == Some(r.ticket.payload) && UrlSafe(r.id)
    ensures r.ticket.expiresAt <= now + cfg.ttl && (op.remaining.Some? ==> r.ticket.expiresAt <= now + op.remaining.value)
    ensures r.ticket.expiresAt == now + cfg.ttl || (op.remaining.Some? && r.ticket.expiresAt == now + op.remaining.value)
    ensures r.id in s'.tickets && s'.tickets[r.id] == r.ticket
    ensures op.owner in s'.epochs && s'.epochs[op.owner] == Epoch(r.ticket.generation, now)
    ensures op.expected.Some? ==> op.expected.value == r.ticket.generation
    ensures op.owner in c.mid.epochs ==> r.ticket.generation == c.mid.epochs[op.owner].generation
    ensures forall id :: id in s'.tickets && id != r.id ==> id in s.tickets && s'.tickets[id] == s.tickets[id]
    ensures op.replace ==>
              forall id :: id in s'.tickets && s'.tickets[id].owner == op.owner && s'.tickets[id].generation == r.ticket.generation ==> id == r.id
    ensures forall o :: o != op.owner ==> (o in s'.epochs <==> o in c.mid.epochs) && (o in s'.epochs ==> s'.epochs[o] == c.mid.epochs[o])
  {
    PruneWithin(cfg, s, now, c.mid);
    IssueEffectMeans(kind, cfg, s, op, now, c);
  }

  lemma IssueEffectMeans(kind: Kind, cfg: Settings, s: Store, op: Op, now: real, c: Choice)
    requires op.Issue? && IssueEffect(kind, cfg, s, op, now, c).1.Issued?
    ensures var (s', r) := IssueEffect(kind, cfg, s, op, now, c);
            && r.ticket.owner == op.owner && op.payload == Some(r.ticket.payload) && UrlSafe(r.id)
            && r.ticket.expiresAt <= now + cfg.ttl && (op.remaining.Some? ==> r.ticket.expiresAt <= now + op.remaining.value)
            && (r.ticket.expiresAt == now + cfg.ttl || (op.remaining.Some? && r.ticket.expiresAt == now + op.remaining.value))
            && r.id in s'.tickets && s'.tickets[r.id] == r.ticket
            && op.owner in s'.epochs && s'.epochs[op.owner] == Epoch(r.ticket.generation, now)
            && (op.expected.Some? ==> op.expected.value == r.ticket.generation)
            && (op.owner in c.mid.epochs ==> r.ticket.generation == c.mid.epochs[op.owner].generation)
            && (forall id :: id in s'.tickets && id != r.id ==> id in c.mid.tickets && s'.tickets[id] == c.mid.tickets[id])
            && (op.replace ==>
                  forall id :: id in s'.tickets && s'.tickets[id].owner == op.owner && s'.tickets[id].generation == r.ticket.generation ==> id == r.id)
            && (forall o :: o != op.owner ==> (o in s'.epochs <==> o in c.mid.epochs) && (o in s'.epochs ==> s'.epochs[o] == c.mid.epochs[o]))
  {
    var taken := Taken(kind, c);
    PickIff(FirstEight(op.ids), taken);
    assert PickId(FirstEight(op.ids), taken).Some?;
  }

  /**
   * And a ticket makes way for it only if it is replaced, or if the store is full
   * even so and none that stays expires earlier.
   */
  lemma IssueKeeps(kind: Kind, cfg: Settings, s: Store, op: Op, now: real, c: Choice, s': Store, r: Reply, id: string)
    requires cfg.Valid() && op.Issue? && Step(kind, cfg, s, op, now, c, s', r) && r.Issued? && id in c.mid.tickets && id !in s'.tickets
    ensures || (op.replace && c.mid.tickets[id].owner == op.owner && c.mid.tickets[id].generation == r.ticket.generation)
            || (|s'.tickets| == cfg.maxEntries && forall k :: k in s'.tickets && k != r.id ==> c.mid.tickets[id].expiresAt <= s'.tickets[k].expiresAt)
  {
    IssueEffectKeeps(kind, cfg, s, op, now, c, id);
  }

  lemma IssueEffectKeeps(kind: Kind, cfg: Settings, s: Store, op: Op, now: real, c: Choice, id: string)
    requires cfg.Valid() && op.Issue? && Evicts(cfg, op, now, c) && id in c.mid.tickets
    requires var (s', r) := IssueEffect(kind, cfg, s, op, now, c); r.Issued? && id !in s'.tickets
    ensures var (s', r) := IssueEffect(kind, cfg, s, op, now, c);
            || (op.replace && c.mid.tickets[id].owner == op.owner && c.mid.tickets[id].generation == r.ticket.generation)
            || (|s'.tickets| == cfg.maxEntries && forall k :: k in s'.tickets && k != r.id ==> c.mid.tickets[id].expiresAt <= s'.tickets[k].expiresAt)
  {
    var (s', r) := IssueEffect(kind, cfg, s, op, now, c);
    var tickets := c.mid.tickets;
    var replaced := Replaced(tickets, op.owner, r.ticket.generation, op.replace);
    IssueShape(kind, cfg, s, op, now, c);
    PickIff(FirstEight(op.ids), Taken(kind, c));
    if id !in replaced {
      assert id in c.gone;
      FullHouse(cfg, tickets, replaced, c.gone, s'.tickets, r.id);
    }
  }

  /** When something is evicted, exactly as much is as must be. */
  lemma FullHouse(cfg: Settings, tickets: map<string, Ticket>, replaced: set<string>, gone: set<string>, after: map<string, Ticket>, id: string)
    requires cfg.Valid() && MakesRoom(cfg, tickets, replaced, gone) && replaced <= tickets.Keys && gone != {}
    requires after.Keys == (tickets.Keys - gone - replaced) + {id} && id !in tickets.Keys - gone - replaced
    requires forall k :: k in after && k != id ==> k in tickets && after[k] == tickets[k]
    ensures |after| == cfg.maxEntries
    ensures forall g, k :: g in gone && k in after && k != id ==> g in tickets && tickets[g].expiresAt <= after[k].expiresAt
  {
    var removable := tickets.Keys - replaced;
    Eviction.Fewer(replaced, tickets.Keys);
    Eviction.Fewer(gone, removable);
    assert removable - gone == tickets.Keys - gone - replaced;
    assert |after.Keys| == |removable - gone| + 1;
    var ages := Expiry(tickets);
    forall g, k | g in gone && k in after && k != id ensures g in tickets && tickets[g].expiresAt <= after[k].expiresAt {
      assert ages[g] <= ages[k];
    }
  }

  // ----- claiming -----

  /** The ticket is stored, the owner's, and on the generation the owner is on. */
  predicate Holds(s: Store, op: Op)
    requires op.Claim?
  {
    var id := Text.Strip(op.id);
    && op.owner != "" && UrlSafe(id) && id in s.tickets && s.tickets[id].owner == op.owner
    && op.owner in s.epochs && s.epochs[op.owner].generation == s.tickets[id].generation
  }

  /** A ticket that is expired but still in its grace window is reported as such, and removed. */
  lemma LapsedIff(kind: Kind, cfg: Settings, s: Store, op: Op, now: real, c: Choice, s': Store, r: Reply)
    requires cfg.Valid() && op.Claim? && Step(kind, cfg, s, op, now, c, s', r)
    ensures r.Lapsed? <==> Holds(s, op) && s.tickets[Text.Strip(op.id)].expiresAt <= now && Stays(cfg, s.tickets[Text.Strip(op.id)], now)
    ensures r.Lapsed? ==> r.id == Text.Strip(op.id) && s'.tickets == c.mid.tickets - {r.id} && r.id in s.tickets && r.ticket == s.tickets[r.id]
    ensures r.Lapsed? ==> op.owner in c.mid.epochs && s'.epochs == if kind.Memory? then Renewed(c.mid.epochs, op.owner, now) else c.mid.epochs
  {
    NormalizedId(op.id);
    PruneWithin(cfg, s, now, c.mid);
    PruneKeeps(cfg, s, now, c.mid);
    if Holds(s, op) && Stays(cfg, s.tickets[Text.Strip(op.id)], now) {
      assert s.tickets[Text.Strip(op.id)].owner == op.owner;
    }
  }

  /** A grant takes all tickets of its owner, puts it on a generation no one was on, and leaves every other owner alone. */
  lemma GrantMeans(kind: Kind, cfg: Settings, s: Store, op: Op, now: real, c: Choice, s': Store, r: Reply)
    requires op.Claim? && Step(kind, cfg, s, op, now, c, s', r) && r.Granted?
    ensures forall id :: id in s'.tickets <==> id in c.mid.tickets && s.tickets[id].owner != op.owner
    ensures forall id :: id in s'.tickets ==> s'.tickets[id] == s.tickets[id]
    ensures op.owner in s'.epochs && s'.epochs[op.owner].touchedAt == now
    ensures forall o :: o in c.mid.epochs ==> c.mid.epochs[o].generation != s'.epochs[op.owner].generation
    ensures forall o :: o != op.owner ==> (o in s'.epochs <==> o in c.mid.epochs) && (o in s'.epochs ==> s'.epochs[o] == c.mid.epochs[o])
  {
    PruneWithin(cfg, s, now, c.mid);
    GrantEffect(kind, s, op, now, c);
  }

  lemma GrantEffect(kind: Kind, s: Store, op: Op, now: real, c: Choice)
    requires op.Claim? && ClaimEffect(kind, s, op, now, c).1.Granted?
    ensures var (s', _) := ClaimEffect(kind, s, op, now, c);
            && (forall id :: id in s'.tickets <==> id in c.mid.tickets && c.mid.tickets[id].owner != op.owner)
            && (forall id :: id in s'.tickets ==> s'.tickets[id] == c.mid.tickets[id])
            && op.owner in s'.epochs && s'.epochs[op.owner].touchedAt == now
            && (forall o :: o in c.mid.epochs ==> c.mid.epochs[o].generation != s'.epochs[op.owner].generation)
            && (forall o :: o != op.owner ==> (o in s'.epochs <==> o in c.mid.epochs) && (o in s'.epochs ==> s'.epochs[o] == c.mid.epochs[o]))
  {
    var touched := if kind.Memory? then c.mid.epochs[op.owner := Epoch(c.mid.epochs[op.owner].generation, now)] else c.mid.epochs;
    TouchKeepsGenerations(c.mid.epochs, op.owner, now);
    NewGenerationDrawn(touched, op.draws);
    assert forall o :: o in c.mid.epochs ==> c.mid.epochs[o].generation in LiveGenerations(c.mid.epochs);
  }

  /** The ticket is there and the owner's, and the owner has an epoch: then the dictionaries note that it was seen. */
  predicate Seen(mid: Store, op: Op)
    requires op.Claim?
  {
    var id := Text.Strip(op.id);
    op.owner != "" && UrlSafe(id) && id in mid.tickets && mid.tickets[id].owner == op.owner && op.owner in mid.epochs
  }

  /** A refused claim changes no ticket, clean-up apart, and no generation. */
  lemma RefusedClaim(kind: Kind, cfg: Settings, s: Store, op: Op, now: real, c: Choice, s': Store, r: Reply)
    requires op.Claim? && Step(kind, cfg, s, op, now, c, s', r) && !r.Granted? && !r.Lapsed?
    ensures r.Rejected? && (kind.Sqlite? ==> s' == s)
    ensures kind.Memory? ==> s' == if Seen(c.mid, op) then Store(c.mid.tickets, Renewed(c.mid.epochs, op.owner, now)) else c.mid
  {
    RefusedEffect(kind, s, op, now, c);
  }

  lemma RefusedEffect(kind: Kind, s: Store, op: Op, now: real, c: Choice)
    requires op.Claim?
    ensures var (s', r) := ClaimEffect(kind, s, op, now, c);
            !r.Granted? && !r.Lapsed? ==>
              && r.Rejected? && (kind.Sqlite? ==> s' == s)
              && (kind.Memory? ==> s' == if Seen(c.mid, op) then Store(c.mid.tickets, Renewed(c.mid.epochs, op.owner, now)) else c.mid)
  {
    NormalizedId(op.id);
  }

  // ----- rotating, discarding, listing -----

  /** A rotation: which of the owner's tickets survive, and on which generation. */
  lemma RotateMeans(kind: Kind, cfg: Settings, s: Store, op: Op, now: real, c: Choice, s': Store, r: Reply)
    requires op.Rotate? && Step(kind, cfg, s, op, now, c, s', r)
    ensures r.Rotated? <==> op.owner != "" && CanDraw(op.draws, c.mid.epochs)
    ensures !r.Rotated? ==> r.Rejected? && s' == if kind.Memory? && op.owner != "" then c.mid else s
    ensures r.Rotated? ==> op.owner in s'.epochs && s'.epochs[op.owner] == Epoch(r.generation, now)
    ensures r.Rotated? ==> forall o :: o in c.mid.epochs ==> c.mid.epochs[o].generation != r.generation
    ensures r.Rotated? && !op.preserve ==>
              && (forall id :: id in s'.tickets <==> id in c.mid.tickets && c.mid.tickets[id].owner != op.owner)
              && (forall id :: id in s'.tickets ==> s'.tickets[id] == c.mid.tickets[id])
              && r.revoked == |set id | id in c.mid.tickets && c.mid.tickets[id].owner == op.owner|
    ensures r.Rotated? && op.preserve ==>
              && r.revoked == 0
              && (forall id :: id in s'.tickets <==>
                   (id in c.mid.tickets && (kind.Sqlite? || c.mid.tickets[id].owner != op.owner || now < c.mid.tickets[id].expiresAt)))
              && (forall id :: id in s'.tickets ==>
                   s'.tickets[id] == if c.mid.tickets[id].owner == op.owner && now < c.mid.tickets[id].expiresAt
                                     then c.mid.tickets[id].(generation := r.generation) else c.mid.tickets[id])
  {
    CanDrawIff(op.draws, c.mid.epochs);
    NewGenerationDrawn(c.mid.epochs, op.draws);
    assert forall o :: o in c.mid.epochs ==> c.mid.epochs[o].generation in LiveGenerations(c.mid.epochs);
    assert OwnedBy(c.mid.tickets, op.owner) == set id | id in c.mid.tickets && c.mid.tickets[id].owner == op.owner;
  }

  /** A ticket is discarded exactly for its owner, and no other ticket goes. */
  lemma DiscardMeans(kind: Kind, cfg: Settings, s: Store, clock: real, op: Op, now: real, c: Choice, s': Store, r: Reply)
    requires Inv(kind, cfg, s, clock) && op.Discard? && Step(kind, cfg, s, op, now, c, s', r)
    ensures var id := Text.Strip(op.id);
            && (r == Discarded(true) <==> op.owner != "" && UrlSafe(id) && id in c.mid.tickets && c.mid.tickets[id].owner == op.owner)
            && (r == Discarded(true) ==> s'.tickets == c.mid.tickets - {id})
    ensures r.Discarded? && (!r.removed ==> s' == c.mid || (kind.Sqlite? && s' == s))
  {
    NormalizedId(op.id);
    PruneWithin(cfg, s, now, c.mid);
    assert "" !in c.mid.tickets;
  }

  /** The tickets that an owner could claim at this time. */
  ghost predicate Listed(s: Store, owner: string, now: real, id: string) {
    && owner != "" && id in s.tickets && s.tickets[id].owner == owner && now < s.tickets[id].expiresAt
    && owner in s.epochs && s.tickets[id].generation == s.epochs[owner].generation
  }

  ghost function Listing(s: Store, owner: string, now: real): map<string, Ticket> {
    map id | id in s.tickets && Listed(s, owner, now, id) :: s.tickets[id]
  }

  /** The tickets listed are the owner's unexpired ones on its generation, and listing touches the owner. */
  lemma ListMeans(kind: Kind, cfg: Settings, s: Store, op: Op, now: real, c: Choice, s': Store, r: Reply)
    requires cfg.Valid() && op.ListActive? && Step(kind, cfg, s, op, now, c, s', r)
    ensures r == Active(Listing(s, op.owner, now))
    ensures op.owner != "" && op.owner in c.mid.epochs ==> s'.epochs == c.mid.epochs[op.owner := Epoch(c.mid.epochs[op.owner].generation, now)]
    ensures op.owner != "" ==> s'.tickets == c.mid.tickets
  {
    assert Listing(s, op.owner, now) == Listing(c.mid, op.owner, now) by {
      ListingAfter(cfg, s, now, c.mid, op.owner);
    }
    ListStep(kind, cfg, s, op, now, c, s', r);
  }

  lemma ListStep(kind: Kind, cfg: Settings, s: Store, op: Op, now: real, c: Choice, s': Store, r: Reply)
    requires op.ListActive? && Step(kind, cfg, s, op, now, c, s', r)
    ensures r == Active(Listing(c.mid, op.owner, now))
    ensures op.owner != "" && op.owner in c.mid.epochs ==> s'.epochs == c.mid.epochs[op.owner := Epoch(c.mid.epochs[op.owner].generation, now)]
    ensures op.owner != "" ==> s'.tickets == c.mid.tickets
  {
    ListEffectMeans(s, op, now, c);
  }

  lemma ListEffectMeans(s: Store, op: Op, now: real, c: Choice)
    requires op.ListActive?
    ensures var (s', r) := ListEffect(s, op, now, c);
            && r == Active(Listing(c.mid, op.owner, now))
            && (op.owner != "" && op.owner in c.mid.epochs ==> s'.epochs == c.mid.epochs[op.owner := Epoch(c.mid.epochs[op.owner].generation, now)])
            && (op.owner != "" ==> s'.tickets == c.mid.tickets)
  {
  }

  lemma ListingAfter(cfg: Settings, s: Store, now: real, mid: Store, owner: string)
    requires cfg.Valid() && Pruned(cfg, s, now, mid)
    ensures Listing(s, owner, now) == Listing(mid, owner, now)
  {
    PruneKeeps(cfg, s, now, mid);
    forall id ensures Listed(s, owner, now, id) <==> Listed(mid, owner, now, id) {
      ListedAfter(cfg, s, now, mid, owner, id);
    }
  }

  /** A clean-up takes no ticket that could be listed. */
  lemma ListedAfter(cfg: Settings, s: Store, now: real, mid: Store, owner: string, id: string)
    requires cfg.Valid() && Pruned(cfg, s, now, mid)
    ensures Listed(s, owner, now, id) <==> Listed(mid, owner, now, id)
  {
    PruneKeeps(cfg, s, now, mid);
    if Listed(s, owner, now, id) {
      assert Stays(cfg, s.tickets[id], now);
    }
  }

  /** Reading a generation gives the owner the one it has, or a free one. */
  lemma ReadMeans(kind: Kind, cfg: Settings, s: Store, op: Op, now: real, c: Choice, s': Store, r: Reply)
    requires op.ReadGeneration? && Step(kind, cfg, s, op, now, c, s', r)
    ensures r.Current? <==> op.owner != "" && (op.owner in c.mid.epochs || CanDraw(op.draws, c.mid.epochs))
    ensures r.Current? ==> s'.tickets == c.mid.tickets && s'.epochs == c.mid.epochs[op.owner := Epoch(r.generation, now)]
    ensures r.Current? && op.owner in c.mid.epochs ==> r.generation == c.mid.epochs[op.owner].generation
    ensures !r.Current? ==> r.Rejected? && s' == if kind.Memory? && op.owner != "" then c.mid else s
  {
    ReadEffectMeans(kind, s, op, now, c);
  }

  lemma ReadEffectMeans(kind: Kind, s: Store, op: Op, now: real, c: Choice)
    requires op.ReadGeneration?
    ensures var (s', r) := ReadEffect(kind, s, op, now, c);
            && (r.Current? <==> op.owner != "" && (op.owner in c.mid.epochs || CanDraw(op.draws, c.mid.epochs)))
            && (r.Current? ==> s'.tickets == c.mid.tickets && s'.epochs == c.mid.epochs[op.owner := Epoch(r.generation, now)])
            && (r.Current? && op.owner in c.mid.epochs ==> r.generation == c.mid.epochs[op.owner].generation)
            && (!r.Current? ==> r.Rejected? && s' == if kind.Memory? && op.owner != "" then c.mid else s)
  {
    CanDrawIff(op.draws, c.mid.epochs);
  }

  // ----- deadlines over runs -----

  /**
   * Nothing outlives its deadline: a claim is granted only before the lifetime of
   * the store, counted from the issue of its ticket, is over, and before what the
   * issuing caller had left is.
   */
  lemma GrantedInTime(kind: Kind, cfg: Settings, states: seq<Store>, events: seq<Event>, i: nat, id: string) returns (j: nat)
    requires Run(kind, cfg, states, events) && GrantedAt(events, i, id)
    ensures j < i && events[j].op.Issue? && events[j].reply.Issued? && events[j].reply.id == id
    ensures events[i].op.Claim? && events[j].op.owner == events[i].op.owner && events[j].op.payload == Some(events[i].reply.ticket.payload)
    ensures events[i].now < events[j].now + cfg.ttl
    ensures events[j].op.remaining.Some? ==> events[i].now < events[j].now + events[j].op.remaining.value
  {
    j := GrantIsIssued(kind, cfg, states, events, i, id);
    var e := events[j];
    IssuedByIssue(kind, cfg, states[j], e.op, e.now, e.choice, states[j + 1], e.reply);
    IssueMeans(kind, cfg, states[j], e.op, e.now, e.choice, states[j + 1], e.reply);
  }

  lemma IssuedByIssue(kind: Kind, cfg: Settings, s: Store, op: Op, now: real, c: Choice, s': Store, r: Reply)
    requires Step(kind, cfg, s, op, now, c, s', r) && r.Issued?
    ensures op.Issue?
  {
    if op.Claim? {
      ClaimReplies(kind, s, op, now, c);
    } else if op.Rotate? {
      RotateReplies(kind, s, op, now, c);
    }
  }

  lemma ClaimReplies(kind: Kind, s: Store, op: Op, now: real, c: Choice)
    requires op.Claim?
    ensures !ClaimEffect(kind, s, op, now, c).1.Issued?
  {
  }

  lemma RotateReplies(kind: Kind, s: Store, op: Op, now: real, c: Choice)
    requires op.Rotate?
    ensures !RotateEffect(kind, s, op, now, c).1.Issued?
  {
  }
}
