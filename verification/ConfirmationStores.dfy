/**
 * The two stores of app/agent/confirmation.py as the application writes them:
 * dictionaries updated in place under a lock, and rows changed in a transaction
 * that is committed or rolled back. Every public method is proved to be one
 * `Step` of the specification in ConfirmationTickets.
 */
module ConfirmationStores {
  import opened Basics
  import opened Eviction
  import opened ConfirmationTickets
  import opened TicketOrder
  import opened ConfirmationSafety
  import Text

  /** `_new_unique_id_locked`: at most eight tokens are tried. */
  method NewId(ids: seq<string>, taken: set<string>) returns (id: Option<string>)
    ensures id == PickId(FirstEight(ids), taken)
  {
    var tries := FirstEight(ids);
    var i := 0;
    while i < |tries|
      invariant 0 <= i <= |tries|
      invariant PickId(tries, taken) == PickId(tries[i..], taken)
    {
      var token := NormalizeId(tries[i]);
      if token != "" && token !in taken {
        return Some(token);
      }
      i := i + 1;
    }
    return None;
  }

  /** `_new_owner_generation_locked`: at most eight draws are tried. */
  method DrawGeneration(epochs: map<string, Epoch>, draws: seq<nat>) returns (generation: Option<nat>)
    ensures generation == NewGeneration(epochs, draws)
  {
    var active := LiveGenerations(epochs);
    var tries := FirstEight(draws);
    var i := 0;
    while i < |tries|
      invariant 0 <= i <= |tries|
      invariant PickGeneration(tries, active) == PickGeneration(tries[i..], active)
    {
      var g := NonZero(tries[i]);
      if g !in active {
        return Some(g);
      }
      i := i + 1;
    }
    return None;
  }

  lemma {:induction false} AnyEviction(age: map<string, real>, removable: set<string>, n: int) returns (gone: set<string>)
    requires removable <= age.Keys
    ensures OldestRemoved(age, removable, n, gone)
    decreases n
  {
    if n <= 0 {
      gone := {};
    } else {
      gone := AnyEviction(age, removable, n - 1);
      if gone == removable {
      } else {
        Fewer(gone, removable);
        var k := AnyOldest(age, removable - gone);
        PopOldest(age, removable, |gone|, gone, k);
        gone := gone + {k};
        Fewer(gone, removable);
      }
    }
  }

  lemma {:induction false} AnyOldest(age: map<string, real>, keys: set<string>) returns (k: string)
    requires keys != {} && keys <= age.Keys
    ensures k in keys && forall o :: o in keys ==> age[k] <= age[o]
    decreases keys
  {
    k :| k in keys;
    if keys != {k} {
      var o := AnyOldest(age, keys - {k});
      if age[o] < age[k] {
        k := o;
      }
    }
  }

  /** A call that is turned away before it touches the store leaves every choice open. */
  lemma AnyChoice(cfg: Settings, s: Store, op: Op, now: real) returns (c: Choice)
    ensures Pruned(cfg, s, now, c.mid)
    ensures op.Issue? ==> Evicts(cfg, op, now, c)
  {
    var kept := InGrace(cfg, s.tickets, now);
    var recent := RecentEpochs(cfg, s.epochs, Owners(kept), now);
    var dropped := AnyEviction(Touched(recent), recent.Keys - Owners(kept), |recent.Keys| - cfg.EpochCap());
    var mid := Store(kept, recent - dropped);
    assert recent.Keys - mid.epochs.Keys == dropped;
    c := AnyGone(cfg, op, now, mid);
  }

  lemma AnyGone(cfg: Settings, op: Op, now: real, mid: Store) returns (c: Choice)
    ensures c.mid == mid && (op.Issue? ==> Evicts(cfg, op, now, c))
  {
    c := Choice(mid, {});
    if op.Issue? {
      var epochs := TouchEpoch(mid.epochs, op.owner, now, op.draws);
      if epochs.Some? {
        var gone := AnyRoom(cfg, mid.tickets, Replaced(mid.tickets, op.owner, epochs.value[op.owner].generation, op.replace));
        c := Choice(mid, gone);
      }
    }
  }

  lemma AnyRoom(cfg: Settings, tickets: map<string, Ticket>, replaced: set<string>) returns (gone: set<string>)
    ensures MakesRoom(cfg, tickets, replaced, gone)
  {
    gone := AnyEviction(Expiry(tickets), tickets.Keys - replaced, |tickets.Keys| - |replaced| + 1 - cfg.maxEntries);
  }

  lemma GraceIs(cfg: Settings, tickets: map<string, Ticket>, now: real, expired: set<string>)
    requires expired == set id | id in tickets && tickets[id].expiresAt + cfg.ttl <= now
    ensures tickets - expired == InGrace(cfg, tickets, now)
  {
  }

  lemma RecentIs(cfg: Settings, epochs: map<string, Epoch>, active: set<string>, now: real, stale: set<string>)
    requires stale == set o | o in epochs && epochs[o].touchedAt <= now - cfg.ttl * 2.0 && o !in active
    ensures epochs - stale == RecentEpochs(cfg, epochs, active, now)
  {
  }

  /** The effect of the call's own kind, after a clean-up, is a step. */
  lemma IsStep(kind: Kind, cfg: Settings, s: Store, op: Op, now: real, c: Choice, s': Store, r: Reply)
    requires Pruned(cfg, s, now, c.mid)
    requires op.Issue? ==> Evicts(cfg, op, now, c) && (s', r) == IssueEffect(kind, cfg, s, op, now, c)
    requires op.Claim? ==> (s', r) == ClaimEffect(kind, s, op, now, c)
    requires op.Rotate? ==> (s', r) == RotateEffect(kind, s, op, now, c)
    requires op.Discard? ==> (s', r) == DiscardEffect(kind, s, op, c)
    requires op.ListActive? ==> (s', r) == ListEffect(s, op, now, c)
    requires op.ReadGeneration? ==> (s', r) == ReadEffect(kind, s, op, now, c)
    requires !op.Reset?
    ensures Step(kind, cfg, s, op, now, c, s', r)
  {
  }

  lemma RoomIsEviction(cfg: Settings, op: Op, now: real, c: Choice, touched: map<string, Epoch>, replaced: set<string>)
    requires op.Issue? && TouchEpoch(c.mid.epochs, op.owner, now, op.draws) == Some(touched)
    requires replaced == Replaced(c.mid.tickets, op.owner, touched[op.owner].generation, op.replace)
    requires MakesRoom(cfg, c.mid.tickets, replaced, c.gone)
    ensures Evicts(cfg, op, now, c)
  {
  }

  /** The in-memory issue that goes through. */
  lemma IssueAccepted(cfg: Settings, before: Store, op: Op, now: real, mid: Store, gone: set<string>, touched: map<string, Epoch>, id: string, ticket: Ticket)
    requires op.Issue? && op.owner != "" && op.payload.Some? && !op.late
    requires TouchEpoch(mid.epochs, op.owner, now, op.draws) == Some(touched)
    requires var generation := touched[op.owner].generation;
             && (op.expected.Some? ==> op.expected.value > 0 && op.expected.value == generation)
             && ExpiresAt(cfg, now, op.remaining) == Some(ticket.expiresAt)
             && ticket == Ticket(op.owner, op.payload.value, ticket.expiresAt, generation)
             && PickId(FirstEight(op.ids), mid.tickets.Keys) == Some(id)
             && MakesRoom(cfg, mid.tickets, Replaced(mid.tickets, op.owner, generation, op.replace), gone)
    ensures var replaced := Replaced(mid.tickets, op.owner, ticket.generation, op.replace);
            IssueEffect(Memory, cfg, before, op, now, Choice(mid, gone)) ==
            (Store(Insert(mid.tickets, gone, replaced, id, ticket), touched), Issued(id, ticket))
    ensures Evicts(cfg, op, now, Choice(mid, gone))
  {
  }

  /** Popping the oldest of what is left continues the eviction of what was stored. */
  lemma PopStored(stored: map<string, Ticket>, left: map<string, Ticket>, replaced: set<string>, gone: set<string>, oldest: string)
    requires left == stored - gone && OldestRemoved(Expiry(stored), stored.Keys - replaced, |gone|, gone)
    requires oldest in left && oldest !in replaced
    requires forall k :: k in left && k !in replaced ==> Expiry(left)[oldest] <= Expiry(left)[k]
    ensures OldestRemoved(Expiry(stored), stored.Keys - replaced, |gone + {oldest}|, gone + {oldest})
    ensures left - {oldest} == stored - (gone + {oldest})
  {
    forall k | k in stored.Keys - replaced && k !in gone ensures Expiry(stored)[oldest] <= Expiry(stored)[k] {
      assert k in left && Expiry(left)[k] == Expiry(stored)[k];
    }
    PopOldest(Expiry(stored), stored.Keys - replaced, |gone|, gone, oldest);
  }

  lemma PopIdle(recent: map<string, Epoch>, left: map<string, Epoch>, active: set<string>, gone: set<string>, oldest: string)
    requires left == recent - gone && OldestRemoved(Touched(recent), recent.Keys - active, |gone|, gone)
    requires oldest in left && oldest !in active
    requires forall o :: o in left && o !in active ==> Touched(left)[oldest] <= Touched(left)[o]
    ensures OldestRemoved(Touched(recent), recent.Keys - active, |gone + {oldest}|, gone + {oldest})
    ensures left - {oldest} == recent - (gone + {oldest})
  {
    forall o | o in recent.Keys - active && o !in gone ensures Touched(recent)[oldest] <= Touched(recent)[o] {
      assert o in left && Touched(left)[o] == Touched(recent)[o];
    }
    PopOldest(Touched(recent), recent.Keys - active, |gone|, gone, oldest);
  }

  /** `ConfirmationStore`: dictionaries under a lock; each method is one critical section. */
  class ConfirmationStore {
    const cfg: Settings
    var tickets: map<string, Ticket>
    var ownerGenerations: map<string, Epoch>

    ghost function View(): Store
      reads this
    {
      Store(tickets, ownerGenerations)
    }

    ghost predicate Valid()
      reads this
    {
      Inv(Memory, cfg, View(), 0.0)
    }

    constructor (ttl: real, maxEntries: nat)
      ensures Valid() && View() == Store(map[], map[])
      ensures cfg.ttl == (if ttl < 1.0 then 1.0 else ttl) && cfg.maxEntries == (if maxEntries < 1 then 1 else maxEntries)
    {
      cfg := Settings(if ttl < 1.0 then 1.0 else ttl, if maxEntries < 1 then 1 else maxEntries);
      tickets := map[];
      ownerGenerations := map[];
    }

    /** `_prune_locked` */
    method Prune(now: real)
      modifies this
      ensures Pruned(cfg, old(View()), now, View())
    {
      ghost var before := View();
      var expired := set id | id in tickets && tickets[id].expiresAt + cfg.ttl <= now;
      GraceIs(cfg, tickets, now, expired);
      tickets := tickets - expired;
      var active := Owners(tickets);
      var stale := set o | o in ownerGenerations && ownerGenerations[o].touchedAt <= now - cfg.ttl * 2.0 && o !in active;
      RecentIs(cfg, ownerGenerations, active, now, stale);
      ownerGenerations := ownerGenerations - stale;
      CapEpochs(active);
    }

    /** The loop at the end of `_prune_locked`: over the cap, the longest untouched idle epoch goes. */
    method CapEpochs(active: set<string>)
      modifies this`ownerGenerations
      ensures Capped(cfg, old(ownerGenerations), active, ownerGenerations)
    {
      ghost var recent := ownerGenerations;
      ghost var gone: set<string> := {};
      while |ownerGenerations| > cfg.EpochCap()
        invariant gone <= recent.Keys - active && ownerGenerations == recent - gone
        invariant OldestRemoved(Touched(recent), recent.Keys - active, |gone|, gone)
        invariant 0 < |gone| ==> |gone| <= |recent.Keys| - cfg.EpochCap()
        decreases ownerGenerations.Keys
      {
        CapTurn(recent, gone, cfg.EpochCap());
        var idle := ownerGenerations.Keys - active;
        if idle == {} {
          break;
        }
        var oldest := Oldest(Touched(ownerGenerations), idle);
        PopIdle(recent, ownerGenerations, active, gone, oldest);
        gone := gone + {oldest};
        ownerGenerations := ownerGenerations - {oldest};
      }
      CapDone(cfg, recent, active, gone, ownerGenerations);
    }

    /** `_owner_generation_locked` with `touch=True` */
    method OwnerGenerationLocked(owner: string, now: real, draws: seq<nat>) returns (generation: Option<nat>)
      modifies this`ownerGenerations
      ensures var epochs := TouchEpoch(old(ownerGenerations), owner, now, draws);
              if epochs.Some? then ownerGenerations == epochs.value && generation == Some(epochs.value[owner].generation)
              else ownerGenerations == old(ownerGenerations) && generation == None
    {
      if owner in ownerGenerations {
        generation := Some(ownerGenerations[owner].generation);
      } else {
        generation := DrawGeneration(ownerGenerations, draws);
      }
      if generation.Some? {
        ownerGenerations := ownerGenerations[owner := Epoch(generation.value, now)];
      }
    }

    method Issue(owner: string, payload: Option<string>, expected: Option<int>, replace: bool, remaining: Option<real>,
                 late: bool, ids: seq<string>, draws: seq<nat>, now: real) returns (r: Reply, ghost c: Choice)
      requires Valid()
      modifies this
      ensures Step(Memory, cfg, old(View()), Op.Issue(Text.Strip(owner), payload, expected, replace, remaining, late, ids, draws), now, c, View(), r)
      ensures Valid()
    {
      var key := Text.Strip(owner);
      ghost var op := Op.Issue(key, payload, expected, replace, remaining, late, ids, draws);
      ghost var before := View();
      var expiresAt := ExpiresAt(cfg, now, remaining);
      if key == "" || payload.None? || (expected.Some? && expected.value <= 0) || expiresAt.None? {
        r := Rejected;
        c := AnyChoice(cfg, before, op, now);
        return;
      }
      Prune(now);
      ghost var mid := View();
      ghost var gone: set<string>;
      r, gone := IssueLocked(key, payload.value, expiresAt.value, expected, replace, late, ids, draws, now, before, op);
      c := Choice(mid, gone);
      Conclude(before, op, now, c, r);
    }

    /** `issue` from the point where the clean-up is done. */
    method IssueLocked(key: string, payload: string, expiresAt: real, expected: Option<int>, replace: bool, late: bool,
                       ids: seq<string>, draws: seq<nat>, now: real, ghost before: Store, ghost op: Op)
      returns (r: Reply, ghost gone: set<string>)
      requires op.Issue? && key != "" && (expected.Some? ==> expected.value > 0)
      requires op == Op.Issue(key, Some(payload), expected, replace, op.remaining, late, ids, draws)
      requires ExpiresAt(cfg, now, op.remaining) == Some(expiresAt)
      modifies this
      ensures (View(), r) == IssueEffect(Memory, cfg, before, op, now, Choice(old(View()), gone))
      ensures Evicts(cfg, op, now, Choice(old(View()), gone))
    {
      ghost var mid := View();
      var generation := OwnerGenerationLocked(key, now, draws);
      var id := NewId(ids, tickets.Keys);
      if generation.None? || (expected.Some? && expected.value != generation.value) || id.None? || late {
        ghost var open := AnyGone(cfg, op, now, mid);
        gone := open.gone;
        r := Rejected;
      } else {
        var ticket := Ticket(key, payload, expiresAt, generation.value);
        gone := MakeRoomAndStore(id.value, ticket, replace);
        IssueAccepted(cfg, before, op, now, mid, gone, ownerGenerations, id.value, ticket);
        r := Issued(id.value, ticket);
      }
    }

    /** The end of `issue`: evict, drop what is replaced, store the new ticket. */
    method MakeRoomAndStore(id: string, ticket: Ticket, replace: bool) returns (ghost gone: set<string>)
      modifies this`tickets
      ensures var replaced := Replaced(old(tickets), ticket.owner, ticket.generation, replace);
              && tickets == Insert(old(tickets), gone, replaced, id, ticket)
              && MakesRoom(cfg, old(tickets), replaced, gone)
    {
      var replaced := set k | k in tickets && replace && tickets[k].owner == ticket.owner && tickets[k].generation == ticket.generation;
      assert replaced == Replaced(tickets, ticket.owner, ticket.generation, replace);
      gone := Evict(replaced);
      tickets := tickets - replaced;
      tickets := tickets[id := ticket];
    }

    /** The eviction loop of `issue`, run while the tickets about to be replaced are still stored. */
    method Evict(replaced: set<string>) returns (ghost gone: set<string>)
      requires replaced <= tickets.Keys
      modifies this`tickets
      ensures tickets == old(tickets) - gone
      ensures MakesRoom(cfg, old(tickets), replaced, gone)
    {
      ghost var stored := tickets;
      var overflow := |tickets| - |replaced| + 1 - cfg.maxEntries;
      ghost var surplus := overflow;
      gone := {};
      while overflow > 0
        invariant gone <= stored.Keys - replaced && tickets == stored - gone
        invariant OldestRemoved(Expiry(stored), stored.Keys - replaced, |gone|, gone)
        invariant overflow == surplus - |gone| && (0 < |gone| ==> |gone| <= surplus)
        decreases overflow
      {
        var candidates := tickets.Keys - replaced;
        if candidates == {} {
          break;
        }
        var oldest := Oldest(Expiry(tickets), candidates);
        PopStored(stored, tickets, replaced, gone, oldest);
        gone := gone + {oldest};
        tickets := tickets - {oldest};
        overflow := overflow - 1;
      }
      EvictDone(cfg, stored, tickets, replaced, gone);
    }

    method ClaimAndRotateOwner(owner: string, confirmationId: string, audited: bool, draws: seq<nat>, now: real) returns (r: Reply, ghost c: Choice)
      requires Valid()
      modifies this
      ensures Step(Memory, cfg, old(View()), Op.Claim(Text.Strip(owner), confirmationId, audited, draws), now, c, View(), r)
      ensures Valid()
    {
      var key := Text.Strip(owner);
      ghost var op := Op.Claim(key, confirmationId, audited, draws);
      ghost var before := View();
      Prune(now);
      c := Choice(View(), {});
      PruneWithin(cfg, before, now, c.mid);
      InvWithin(Memory, cfg, before, 0.0, 0.0, c.mid);
      r := ClaimLocked(key, confirmationId, audited, draws, now, before, op);
      Conclude(before, op, now, c, r);
    }

    /** `claim_and_rotate_owner` from the point where the clean-up is done. */
    method ClaimLocked(key: string, confirmationId: string, audited: bool, draws: seq<nat>, now: real, ghost before: Store, ghost op: Op)
      returns (r: Reply)
      requires Valid() && op == Op.Claim(key, confirmationId, audited, draws)
      modifies this
      ensures (View(), r) == ClaimEffect(Memory, before, op, now, Choice(old(View()), {}))
    {
      var id := NormalizeId(confirmationId);
      if id !in tickets || key == "" || tickets[id].owner != key {
        r := Rejected;
      } else {
        assert Bound(Memory, View(), 0.0, tickets[id]);
        var ticket := tickets[id];
        var generation := OwnerGenerationLocked(key, now, draws);
        if ticket.generation != generation.value {
          r := Rejected;
        } else if ticket.expiresAt <= now {
          tickets := tickets - {id};
          r := Lapsed(id, ticket);
        } else {
          var next := DrawGeneration(ownerGenerations, draws);
          if next.None? || !audited {
            r := Rejected;
          } else {
            ownerGenerations := ownerGenerations[key := Epoch(next.value, now)];
            assert ownerGenerations == old(ownerGenerations)[key := Epoch(next.value, now)];
            tickets := tickets - OwnedBy(tickets, key);
            r := Granted(id, ticket);
          }
        }
      }
    }

    method RotateOwner(owner: string, preserve: bool, draws: seq<nat>, now: real) returns (r: Reply, ghost c: Choice)
      requires Valid()
      modifies this
      ensures Step(Memory, cfg, old(View()), Op.Rotate(Text.Strip(owner), preserve, draws), now, c, View(), r)
      ensures Valid()
    {
      var key := Text.Strip(owner);
      ghost var op := Op.Rotate(key, preserve, draws);
      ghost var before := View();
      if key == "" {
        r := Rejected;
        c := AnyChoice(cfg, before, op, now);
        return;
      }
      Prune(now);
      c := Choice(View(), {});
      var generation := DrawGeneration(ownerGenerations, draws);
      if generation.None? {
        r := Rejected;
      } else {
        ownerGenerations := ownerGenerations[key := Epoch(generation.value, now)];
        var owned := OwnedBy(tickets, key);
        if preserve {
          MoveToGeneration(key, generation.value, owned, now);
          r := Rotated(0, generation.value);
        } else {
          tickets := tickets - owned;
          r := Rotated(|owned|, generation.value);
        }
      }
      Conclude(before, op, now, c, r);
    }

    /** The `preserve_active` loop of `rotate_owner`: unexpired tickets move on, expired ones go. */
    method MoveToGeneration(owner: string, generation: nat, owned: set<string>, now: real)
      requires owned == OwnedBy(tickets, owner)
      modifies this`tickets
      ensures tickets == Preserved(Memory, old(tickets), owner, generation, now)
    {
      ghost var was := tickets;
      var rest := owned;
      while rest != {}
        invariant rest <= owned
        invariant forall id :: id in was && (id !in owned || id in rest) ==> id in tickets && tickets[id] == was[id]
        invariant forall id :: id in tickets ==> id in was
        invariant forall id :: id in owned && id !in rest ==>
                    if was[id].expiresAt > now then id in tickets && tickets[id] == was[id].(generation := generation)
                    else id !in tickets
        decreases rest
      {
        var id :| id in rest;
        if tickets[id].expiresAt > now {
          tickets := tickets[id := tickets[id].(generation := generation)];
        } else {
          tickets := tickets - {id};
        }
        rest := rest - {id};
      }
    }

    method Discard(owner: string, confirmationId: string, now: real) returns (r: Reply, ghost c: Choice)
      requires Valid()
      modifies this
      ensures Step(Memory, cfg, old(View()), Op.Discard(Text.Strip(owner), confirmationId), now, c, View(), r)
      ensures Valid()
    {
      var key := Text.Strip(owner);
      ghost var op := Op.Discard(key, confirmationId);
      ghost var before := View();
      var id := NormalizeId(confirmationId);
      Prune(now);
      c := Choice(View(), {});
      if id !in tickets || key == "" || tickets[id].owner != key {
        r := Discarded(false);
      } else {
        tickets := tickets - {id};
        r := Discarded(true);
      }
      Conclude(before, op, now, c, r);
    }

    /** The tickets are listed by expiry and id. */
    method ListActiveTickets(owner: string, now: real) returns (listed: seq<string>, r: Reply, ghost c: Choice)
      requires Valid()
      modifies this
      ensures Step(Memory, cfg, old(View()), Op.ListActive(Text.Strip(owner)), now, c, View(), r)
      ensures r.Active? && Lists(r.tickets, listed)
      ensures Valid()
    {
      var key := Text.Strip(owner);
      ghost var op := Op.ListActive(key);
      ghost var before := View();
      listed := [];
      if key == "" {
        r := Active(map[]);
        c := AnyChoice(cfg, before, op, now);
        return;
      }
      Prune(now);
      c := Choice(View(), {});
      r := ListLocked(key, now, before, op);
      Conclude(before, op, now, c, r);
      listed := SortTickets(r.tickets);
    }

    method ListLocked(key: string, now: real, ghost before: Store, ghost op: Op) returns (r: Reply)
      requires key != "" && op == Op.ListActive(key)
      modifies this`ownerGenerations
      ensures (View(), r) == ListEffect(before, op, now, Choice(old(View()), {})) && r.Active?
    {
      if key !in ownerGenerations {
        r := Active(map[]);
      } else {
        var generation := ownerGenerations[key].generation;
        ownerGenerations := ownerGenerations[key := Epoch(generation, now)];
        var listed := map id | id in tickets && tickets[id].generation == generation && tickets[id].owner == key
                               && tickets[id].expiresAt > now :: tickets[id];
        assert listed == Claimable(old(View()), key, now);
        r := Active(listed);
      }
    }

    method OwnerGeneration(owner: string, draws: seq<nat>, now: real) returns (r: Reply, ghost c: Choice)
      requires Valid()
      modifies this
      ensures Step(Memory, cfg, old(View()), Op.ReadGeneration(Text.Strip(owner), draws), now, c, View(), r)
      ensures Valid()
    {
      var key := Text.Strip(owner);
      ghost var op := Op.ReadGeneration(key, draws);
      ghost var before := View();
      if key == "" {
        r := Rejected;
        c := AnyChoice(cfg, before, op, now);
        return;
      }
      Prune(now);
      c := Choice(View(), {});
      var generation := OwnerGenerationLocked(key, now, draws);
      r := if generation.None? then Rejected else Current(generation.value);
      Conclude(before, op, now, c, r);
    }

    method Clear(now: real) returns (r: Reply, ghost c: Choice)
      modifies this
      requires Valid()
      ensures Step(Memory, cfg, old(View()), Op.Reset, now, c, View(), r)
      ensures Valid()
    {
      c := AnyChoice(cfg, View(), Reset, now);
      tickets := map[];
      ownerGenerations := map[];
      r := Cleared;
    }

    /** A critical section whose result is the specified effect is a step, and leaves the store valid. */
    lemma Conclude(before: Store, op: Op, now: real, c: Choice, r: Reply)
      requires Inv(Memory, cfg, before, 0.0) && Pruned(cfg, before, now, c.mid)
      requires op.Issue? ==> Evicts(cfg, op, now, c)
      requires (View(), r) == Effect(Memory, cfg, before, op, now, c)
      ensures Step(Memory, cfg, before, op, now, c, View(), r)
      ensures Valid()
    {
      MemoryClockFree(cfg, before, 0.0, now);
      InvStep(Memory, cfg, before, now, op, now, c, View(), r);
      MemoryClockFree(cfg, View(), now, 0.0);
    }
  }

  /** `DELETE` of the replaced rows, sparing the one just inserted. */
  function DeleteReplaced(inserted: map<string, Ticket>, replaced: set<string>, id: string): map<string, Ticket> {
    map k | k in inserted && (k !in replaced || k == id) :: inserted[k]
  }

  lemma InsertIs(kept: map<string, Ticket>, evicted: set<string>, replaced: set<string>, id: string, ticket: Ticket)
    ensures DeleteReplaced((kept - evicted)[id := ticket], replaced, id) == Insert(kept, evicted, replaced, id, ticket)
  {
  }

  /**
   * `SQLiteConfirmationStore`: one immediate transaction per call. The local
   * copies are the transaction's view; assigning the fields is the commit, and
   * an exception leaves them alone.
   */
  class SQLiteConfirmationStore {
    const cfg: Settings
    var rows: map<string, Ticket>
    var epochs: map<string, Epoch>

    ghost function View(): Store
      reads this
    {
      Store(rows, epochs)
    }

    constructor (ttl: real, maxEntries: nat)
      ensures cfg.Valid() && View() == Store(map[], map[])
    {
      cfg := Settings(if ttl < 1.0 then 1.0 else ttl, if maxEntries < 1 then 1 else maxEntries);
      rows := map[];
      epochs := map[];
    }

    /** `_prune`, on the transaction's view */
    method Prune(now: real) returns (keptRows: map<string, Ticket>, keptEpochs: map<string, Epoch>)
      ensures Pruned(cfg, View(), now, Store(keptRows, keptEpochs))
    {
      var expired := set id | id in rows && rows[id].expiresAt <= now - cfg.ttl;
      GraceIs(cfg, rows, now, expired);
      keptRows := rows - expired;
      var active := Owners(keptRows);
      var cutoff := now - cfg.ttl * 2.0;
      var stale := set o | o in epochs && epochs[o].touchedAt <= cutoff && o !in active;
      RecentIs(cfg, epochs, active, now, stale);
      var recent := epochs - stale;
      var overflow := |recent| - cfg.EpochCap();
      var dropped := DeleteOldest(Touched(recent), recent.Keys - active, overflow);
      keptEpochs := recent - dropped;
      assert recent.Keys - keptEpochs.Keys == dropped;
    }

    /** `_owner_generation` with `touch=True` */
    method OwnerGenerationOf(kept: map<string, Epoch>, owner: string, now: real, draws: seq<nat>) returns (touched: Option<map<string, Epoch>>)
      ensures touched == TouchEpoch(kept, owner, now, draws)
    {
      if owner !in kept {
        var generation := DrawGeneration(kept, draws);
        return if generation.None? then None else Some(kept[owner := Epoch(generation.value, now)]);
      }
      return Some(kept[owner := kept[owner].(touchedAt := now)]);
    }

    /** `_rotate_owner_state` */
    method RotateOwnerState(keptRows: map<string, Ticket>, keptEpochs: map<string, Epoch>, owner: string, now: real, preserve: bool, draws: seq<nat>)
      returns (moved: Option<(map<string, Ticket>, map<string, Epoch>, nat, nat)>)
      ensures var generation := NewGeneration(keptEpochs, draws);
              moved == if generation.None? then None
                       else Some((if preserve then Preserved(Sqlite, keptRows, owner, generation.value, now)
                                  else keptRows - OwnedBy(keptRows, owner),
                                  keptEpochs[owner := Epoch(generation.value, now)],
                                  if preserve then 0 else |OwnedBy(keptRows, owner)|,
                                  generation.value))
    {
      var generation := DrawGeneration(keptEpochs, draws);
      if generation.None? {
        return None;
      }
      var epochs' := keptEpochs[owner := Epoch(generation.value, now)];
      if preserve {
        var rows' := map id | id in keptRows ::
          if keptRows[id].owner == owner && keptRows[id].expiresAt > now then keptRows[id].(generation := generation.value)
          else keptRows[id];
        assert rows' == Preserved(Sqlite, keptRows, owner, generation.value, now);
        return Some((rows', epochs', 0, generation.value));
      }
      var deleted := OwnedBy(keptRows, owner);
      return Some((keptRows - deleted, epochs', |deleted|, generation.value));
    }

    method Issue(owner: string, payload: Option<string>, expected: Option<int>, replace: bool, remaining: Option<real>,
                 late: bool, ids: seq<string>, draws: seq<nat>, now: real) returns (r: Reply, ghost c: Choice)
      modifies this
      ensures Step(Sqlite, cfg, old(View()), Op.Issue(Text.Strip(owner), payload, expected, replace, remaining, late, ids, draws), now, c, View(), r)
    {
      var key := Text.Strip(owner);
      ghost var op := Op.Issue(key, payload, expected, replace, remaining, late, ids, draws);
      var expiresAt := ExpiresAt(cfg, now, remaining);
      if key == "" || payload.None? || (expected.Some? && expected.value <= 0) || expiresAt.None? {
        r := Rejected;
        c := AnyChoice(cfg, View(), op, now);
        return;
      }
      var keptRows, keptEpochs := Prune(now);
      ghost var mid := Store(keptRows, keptEpochs);
      ghost var gone: set<string>;
      r, gone := IssueInTransaction(key, payload.value, expiresAt.value, expected, replace, late, ids, draws, now, op, keptRows, keptEpochs);
      c := Choice(mid, gone);
      IsStep(Sqlite, cfg, old(View()), op, now, c, View(), r);
    }

    /** `issue` after the clean-up; evictions come before the insert, and any failure rolls both back. */
    method IssueInTransaction(key: string, payload: string, expiresAt: real, expected: Option<int>, replace: bool, late: bool,
                              ids: seq<string>, draws: seq<nat>, now: real, ghost op: Op,
                              keptRows: map<string, Ticket>, keptEpochs: map<string, Epoch>)
      returns (r: Reply, ghost gone: set<string>)
      requires op.Issue? && key != "" && (expected.Some? ==> expected.value > 0)
      requires op == Op.Issue(key, Some(payload), expected, replace, op.remaining, late, ids, draws)
      requires ExpiresAt(cfg, now, op.remaining) == Some(expiresAt)
      modifies this
      ensures (View(), r) == IssueEffect(Sqlite, cfg, old(View()), op, now, Choice(Store(keptRows, keptEpochs), gone))
      ensures Evicts(cfg, op, now, Choice(Store(keptRows, keptEpochs), gone))
    {
      ghost var mid := Store(keptRows, keptEpochs);
      var touched := OwnerGenerationOf(keptEpochs, key, now, draws);
      if touched.None? || (expected.Some? && expected.value != touched.value[key].generation) {
        ghost var open := AnyGone(cfg, op, now, mid);
        gone := open.gone;
        r := Rejected;
        return;
      }
      var generation := touched.value[key].generation;
      var replaced := set id | id in keptRows && replace && keptRows[id].owner == key && keptRows[id].generation == generation;
      assert replaced == Replaced(keptRows, key, generation, replace);
      var evicted := DeleteForRoom(keptRows, replaced);
      gone := evicted;
      RoomIsEviction(cfg, op, now, Choice(mid, gone), touched.value, replaced);
      var id := NewId(ids, keptRows.Keys - evicted);
      if id.None? || late {
        r := Rejected;
        return;
      }
      var ticket := Ticket(key, payload, expiresAt, generation);
      InsertIs(keptRows, evicted, replaced, id.value, ticket);
      rows := DeleteReplaced((keptRows - evicted)[id.value := ticket], replaced, id.value);
      epochs := touched.value;
      r := Issued(id.value, ticket);
    }

    method DeleteForRoom(keptRows: map<string, Ticket>, replaced: set<string>) returns (evicted: set<string>)
      ensures MakesRoom(cfg, keptRows, replaced, evicted)
    {
      var overflow := |keptRows.Keys| - |replaced| + 1 - cfg.maxEntries;
      evicted := DeleteOldest(Expiry(keptRows), keptRows.Keys - replaced, overflow);
    }

    method ClaimAndRotateOwner(owner: string, confirmationId: string, audited: bool, draws: seq<nat>, now: real) returns (r: Reply, ghost c: Choice)
      modifies this
      ensures Step(Sqlite, cfg, old(View()), Op.Claim(Text.Strip(owner), confirmationId, audited, draws), now, c, View(), r)
    {
      var key := Text.Strip(owner);
      ghost var op := Op.Claim(key, confirmationId, audited, draws);
      if key == "" || NormalizeId(confirmationId) == "" {
        r := Rejected;
        c := AnyChoice(cfg, View(), op, now);
        return;
      }
      var keptRows, keptEpochs := Prune(now);
      c := Choice(Store(keptRows, keptEpochs), {});
      r := ClaimInTransaction(key, confirmationId, audited, draws, now, op, keptRows, keptEpochs);
      IsStep(Sqlite, cfg, old(View()), op, now, c, View(), r);
    }

    method ClaimInTransaction(key: string, confirmationId: string, audited: bool, draws: seq<nat>, now: real, ghost op: Op,
                              keptRows: map<string, Ticket>, keptEpochs: map<string, Epoch>) returns (r: Reply)
      requires key != "" && NormalizeId(confirmationId) != "" && op == Op.Claim(key, confirmationId, audited, draws)
      modifies this
      ensures (View(), r) == ClaimEffect(Sqlite, old(View()), op, now, Choice(Store(keptRows, keptEpochs), {}))
    {
      var id := NormalizeId(confirmationId);
      if id !in keptRows || keptRows[id].owner != key || key !in keptEpochs {
        return Rejected;
      }
      var ticket := keptRows[id];
      if ticket.generation != keptEpochs[key].generation {
        return Rejected;
      }
      if ticket.expiresAt <= now {
        rows, epochs := keptRows - {id}, keptEpochs;
        return Lapsed(id, ticket);
      }
      if !audited {
        return Rejected;
      }
      var moved := RotateOwnerState(keptRows, keptEpochs, key, now, false, draws);
      if moved.None? {
        return Rejected;
      }
      rows, epochs := moved.value.0, moved.value.1;
      return Granted(id, ticket);
    }

    method RotateOwner(owner: string, preserve: bool, draws: seq<nat>, now: real) returns (r: Reply, ghost c: Choice)
      modifies this
      ensures Step(Sqlite, cfg, old(View()), Op.Rotate(Text.Strip(owner), preserve, draws), now, c, View(), r)
    {
      var key := Text.Strip(owner);
      ghost var op := Op.Rotate(key, preserve, draws);
      if key == "" {
        r := Rejected;
        c := AnyChoice(cfg, View(), op, now);
        return;
      }
      var keptRows, keptEpochs := Prune(now);
      c := Choice(Store(keptRows, keptEpochs), {});
      var moved := RotateOwnerState(keptRows, keptEpochs, key, now, preserve, draws);
      if moved.None? {
        r := Rejected;
      } else {
        rows, epochs := moved.value.0, moved.value.1;
        r := Rotated(moved.value.2, moved.value.3);
      }
    }

    method Discard(owner: string, confirmationId: string, now: real) returns (r: Reply, ghost c: Choice)
      modifies this
      ensures Step(Sqlite, cfg, old(View()), Op.Discard(Text.Strip(owner), confirmationId), now, c, View(), r)
    {
      var key := Text.Strip(owner);
      ghost var op := Op.Discard(key, confirmationId);
      var id := NormalizeId(confirmationId);
      if key == "" || id == "" {
        r := Discarded(false);
        c := AnyChoice(cfg, View(), op, now);
        return;
      }
      var keptRows, keptEpochs := Prune(now);
      c := Choice(Store(keptRows, keptEpochs), {});
      r := DiscardInTransaction(key, id, op, keptRows, keptEpochs);
      IsStep(Sqlite, cfg, old(View()), op, now, c, View(), r);
    }

    method DiscardInTransaction(key: string, id: string, ghost op: Op, keptRows: map<string, Ticket>, keptEpochs: map<string, Epoch>)
      returns (r: Reply)
      requires key != "" && id != "" && op.Discard? && op.owner == key && NormalizeId(op.id) == id
      modifies this
      ensures (View(), r) == DiscardEffect(Sqlite, old(View()), op, Choice(Store(keptRows, keptEpochs), {}))
    {
      var found := id in keptRows && keptRows[id].owner == key;
      rows, epochs := if found then keptRows - {id} else keptRows, keptEpochs;
      r := Discarded(found);
    }

    /** `ORDER BY expires_at,confirmation_id` */
    method ListActiveTickets(owner: string, now: real) returns (listed: seq<string>, r: Reply, ghost c: Choice)
      modifies this
      ensures Step(Sqlite, cfg, old(View()), Op.ListActive(Text.Strip(owner)), now, c, View(), r)
      ensures r.Active? && Lists(r.tickets, listed)
    {
      var key := Text.Strip(owner);
      ghost var op := Op.ListActive(key);
      listed := [];
      if key == "" {
        r := Active(map[]);
        c := AnyChoice(cfg, View(), op, now);
        return;
      }
      var keptRows, keptEpochs := Prune(now);
      c := Choice(Store(keptRows, keptEpochs), {});
      r := ListInTransaction(key, now, op, keptRows, keptEpochs);
      IsStep(Sqlite, cfg, old(View()), op, now, c, View(), r);
      listed := SortTickets(r.tickets);
    }

    method ListInTransaction(key: string, now: real, ghost op: Op, keptRows: map<string, Ticket>, keptEpochs: map<string, Epoch>)
      returns (r: Reply)
      requires key != "" && op == Op.ListActive(key)
      modifies this
      ensures (View(), r) == ListEffect(old(View()), op, now, Choice(Store(keptRows, keptEpochs), {})) && r.Active?
    {
      rows, epochs := keptRows, keptEpochs;
      if key !in keptEpochs {
        return Active(map[]);
      }
      var generation := keptEpochs[key].generation;
      var selected := map id | id in keptRows && keptRows[id].owner == key && keptRows[id].generation == generation
                               && keptRows[id].expiresAt > now :: keptRows[id];
      assert selected == Claimable(Store(keptRows, keptEpochs), key, now);
      epochs := keptEpochs[key := Epoch(generation, now)];
      return Active(selected);
    }

    method OwnerGeneration(owner: string, draws: seq<nat>, now: real) returns (r: Reply, ghost c: Choice)
      modifies this
      ensures Step(Sqlite, cfg, old(View()), Op.ReadGeneration(Text.Strip(owner), draws), now, c, View(), r)
    {
      var key := Text.Strip(owner);
      ghost var op := Op.ReadGeneration(key, draws);
      if key == "" {
        r := Rejected;
        c := AnyChoice(cfg, View(), op, now);
        return;
      }
      var keptRows, keptEpochs := Prune(now);
      c := Choice(Store(keptRows, keptEpochs), {});
      r := ReadInTransaction(key, draws, now, op, keptRows, keptEpochs);
      IsStep(Sqlite, cfg, old(View()), op, now, c, View(), r);
    }

    method ReadInTransaction(key: string, draws: seq<nat>, now: real, ghost op: Op, keptRows: map<string, Ticket>, keptEpochs: map<string, Epoch>)
      returns (r: Reply)
      requires key != "" && op == Op.ReadGeneration(key, draws)
      modifies this
      ensures (View(), r) == ReadEffect(Sqlite, old(View()), op, now, Choice(Store(keptRows, keptEpochs), {}))
    {
      var touched := OwnerGenerationOf(keptEpochs, key, now, draws);
      if touched.None? {
        return Rejected;
      }
      rows, epochs := keptRows, touched.value;
      return Current(touched.value[key].generation);
    }

    method Clear(now: real) returns (r: Reply, ghost c: Choice)
      modifies this
      ensures Step(Sqlite, cfg, old(View()), Op.Reset, now, c, View(), r)
    {
      c := AnyChoice(cfg, View(), Reset, now);
      rows, epochs := map[], map[];
      r := Cleared;
    }
  }

  lemma MemoryClockFree(cfg: Settings, s: Store, a: real, b: real)
    requires Inv(Memory, cfg, s, a)
    ensures Inv(Memory, cfg, s, b)
  {
    forall id | id in s.tickets ensures id != "" && Bound(Memory, s, b, s.tickets[id]) {
      assert Bound(Memory, s, a, s.tickets[id]);
    }
  }

  lemma EvictDone(cfg: Settings, stored: map<string, Ticket>, left: map<string, Ticket>, replaced: set<string>, gone: set<string>)
    requires replaced <= stored.Keys && left == stored - gone
    requires OldestRemoved(Expiry(stored), stored.Keys - replaced, |gone|, gone)
    requires |gone| >= |stored| - |replaced| + 1 - cfg.maxEntries || left.Keys - replaced == {}
    requires 0 < |gone| ==> |gone| <= |stored| - |replaced| + 1 - cfg.maxEntries
    ensures MakesRoom(cfg, stored, replaced, gone)
  {
    if left.Keys - replaced == {} {
      assert gone == stored.Keys - replaced;
    }
    Saturated(stored.Keys - replaced, gone, |stored.Keys| - |replaced| + 1 - cfg.maxEntries);
  }

  /** One turn of the epoch cap: while over the cap the count leaves room for one more. */
  lemma CapTurn(recent: map<string, Epoch>, gone: set<string>, cap: nat)
    requires gone <= recent.Keys && |recent - gone| > cap
    ensures |gone| + 1 <= |recent.Keys| - cap
  {
    Fewer(gone, recent.Keys);
    assert (recent - gone).Keys == recent.Keys - gone;
  }

  lemma CapDone(cfg: Settings, recent: map<string, Epoch>, active: set<string>, gone: set<string>, left: map<string, Epoch>)
    requires gone <= recent.Keys - active && left == recent - gone
    requires |left| <= cfg.EpochCap() || left.Keys - active == {}
    requires 0 < |gone| ==> |gone| <= |recent.Keys| - cfg.EpochCap()
    requires OldestRemoved(Touched(recent), recent.Keys - active, |gone|, gone)
    ensures Capped(cfg, recent, active, left)
  {
    assert left.Keys == recent.Keys - gone;
    CapCount(recent.Keys, active, gone, left.Keys, cfg.EpochCap());
    Recount(Touched(recent), recent.Keys - active, |recent.Keys| - cfg.EpochCap(), gone);
    CappedBy(cfg, recent, active, gone, left);
  }

  lemma CappedBy(cfg: Settings, recent: map<string, Epoch>, active: set<string>, gone: set<string>, left: map<string, Epoch>)
    requires gone <= recent.Keys && left == recent - gone
    requires OldestRemoved(Touched(recent), recent.Keys - active, |recent.Keys| - cfg.EpochCap(), gone)
    ensures Capped(cfg, recent, active, left)
  {
    assert recent.Keys - left.Keys == gone;
  }

  lemma CapCount(all: set<string>, active: set<string>, gone: set<string>, left: set<string>, cap: nat)
    requires gone <= all - active && left == all - gone
    requires |left| <= cap || left - active == {}
    requires 0 < |gone| ==> |gone| <= |all| - cap
    ensures |gone| == (if |all| - cap <= 0 then 0 else Min(|all| - cap, |all - active|))
  {
    Fewer(gone, all);
    Fewer(gone, all - active);
    if left - active == {} {
      assert all - active <= gone;
    }
    Saturated(all - active, gone, |all| - cap);
  }
}
