/**
 * Tickets that are stored although they no longer carry their owner's current
 * generation: where they come from, exactly.
 */
module ConfirmationResidue {
  import opened Basics
  import opened ConfirmationTickets
  import opened ConfirmationSafety

  predicate IsCurrent(s: Store, t: Ticket) {
    t.owner in s.epochs && s.epochs[t.owner].generation == t.generation
  }

  ghost predicate AllCurrent(s: Store) {
    forall id :: id in s.tickets ==> IsCurrent(s, s.tickets[id])
  }

  /** The owner has a ticket that is expired and still within its grace window. */
  predicate HasExpired(cfg: Settings, tickets: map<string, Ticket>, owner: string, now: real) {
    exists id :: id in tickets && tickets[id].owner == owner && tickets[id].expiresAt <= now < tickets[id].expiresAt + cfg.ttl
  }

  /** A preserving rotation in SQLite, of an owner with an expired row. */
  predicate LeavesResidue(kind: Kind, cfg: Settings, s: Store, op: Op, now: real) {
    kind.Sqlite? && op.Rotate? && op.preserve && HasExpired(cfg, s.tickets, op.owner, now)
  }

  lemma CurrentTouched(mid: Store, owner: string, now: real, draws: seq<nat>)
    requires AllCurrent(mid) && TouchEpoch(mid.epochs, owner, now, draws).Some?
    ensures AllCurrent(Store(mid.tickets, TouchEpoch(mid.epochs, owner, now, draws).value))
  {
    forall id | id in mid.tickets ensures IsCurrent(Store(mid.tickets, TouchEpoch(mid.epochs, owner, now, draws).value), mid.tickets[id]) {
      assert IsCurrent(mid, mid.tickets[id]);
    }
  }

  lemma CurrentIssue(kind: Kind, cfg: Settings, s: Store, op: Op, now: real, c: Choice)
    requires op.Issue? && AllCurrent(s) && AllCurrent(c.mid)
    ensures AllCurrent(IssueEffect(kind, cfg, s, op, now, c).0)
  {
    IssueShape(kind, cfg, s, op, now, c);
    var (s', r) := IssueEffect(kind, cfg, s, op, now, c);
    if TouchEpoch(c.mid.epochs, op.owner, now, op.draws).Some? {
      CurrentTouched(c.mid, op.owner, now, op.draws);
      ShapedCurrent(s, op, now, c, s', r);
    }
  }

  lemma ShapedCurrent(s: Store, op: Op, now: real, c: Choice, s': Store, r: Reply)
    requires op.Issue? && IssueShaped(s, op, now, c, s', r) && AllCurrent(s) && AllCurrent(c.mid)
    requires TouchEpoch(c.mid.epochs, op.owner, now, op.draws).Some?
    requires AllCurrent(Store(c.mid.tickets, TouchEpoch(c.mid.epochs, op.owner, now, op.draws).value))
    ensures AllCurrent(s')
  {
    if r.Issued? {
      forall id | id in s'.tickets ensures IsCurrent(s', s'.tickets[id]) {
        if id != r.id {
          assert IsCurrent(Store(c.mid.tickets, s'.epochs), c.mid.tickets[id]);
        }
      }
    }
  }

  lemma CurrentClaim(kind: Kind, s: Store, op: Op, now: real, c: Choice)
    requires op.Claim? && AllCurrent(s) && AllCurrent(c.mid)
    ensures AllCurrent(ClaimEffect(kind, s, op, now, c).0)
  {
    var (s', r) := ClaimEffect(kind, s, op, now, c);
    forall id | id in s'.tickets ensures IsCurrent(s', s'.tickets[id]) {
      assert id in s.tickets && s'.tickets[id] == s.tickets[id] ==> IsCurrent(s, s.tickets[id]);
      assert id in c.mid.tickets ==> IsCurrent(c.mid, c.mid.tickets[id]);
    }
  }

  lemma CurrentOther(kind: Kind, cfg: Settings, s: Store, op: Op, now: real, c: Choice)
    requires (op.Discard? || op.ListActive? || op.ReadGeneration? || op.Reset?) && AllCurrent(s) && AllCurrent(c.mid)
    ensures AllCurrent(Effect(kind, cfg, s, op, now, c).0)
  {
    if op.ReadGeneration? && TouchEpoch(c.mid.epochs, op.owner, now, op.draws).Some? {
      CurrentTouched(c.mid, op.owner, now, op.draws);
    } else if op.ListActive? && op.owner in c.mid.epochs {
      CurrentTouched(c.mid, op.owner, now, []);
    } else if op.Discard? {
      var s' := DiscardEffect(kind, s, op, c).0;
      forall id | id in s'.tickets ensures IsCurrent(s', s'.tickets[id]) {
        assert id in s.tickets && s'.tickets[id] == s.tickets[id] ==> IsCurrent(s, s.tickets[id]);
        assert id in c.mid.tickets ==> IsCurrent(c.mid, c.mid.tickets[id]);
      }
    }
  }

  /** Among the tickets left by the clean-up, an expired one of the owner keeps the generation the owner leaves. */
  lemma CurrentRotate(kind: Kind, cfg: Settings, s: Store, op: Op, now: real, c: Choice)
    requires op.Rotate? && AllCurrent(s) && AllCurrent(c.mid) && c.mid.tickets == InGrace(cfg, s.tickets, now)
    ensures var (s', r) := RotateEffect(kind, s, op, now, c); AllCurrent(s') <==> !(r.Rotated? && LeavesResidue(kind, cfg, s, op, now))
  {
    var (s', r) := RotateEffect(kind, s, op, now, c);
    if r.Rotated? {
      NewGenerationDrawn(c.mid.epochs, op.draws);
      if LeavesResidue(kind, cfg, s, op, now) {
        var id :| id in s.tickets && s.tickets[id].owner == op.owner && s.tickets[id].expiresAt <= now < s.tickets[id].expiresAt + cfg.ttl;
        assert id in s'.tickets && s'.tickets[id] == s.tickets[id] && IsCurrent(c.mid, c.mid.tickets[id]);
        assert !IsCurrent(s', s'.tickets[id]);
      } else {
        forall id | id in s'.tickets ensures IsCurrent(s', s'.tickets[id]) {
          assert IsCurrent(c.mid, c.mid.tickets[id]);
        }
      }
    }
  }

  /**
   * When every stored ticket carries its owner's generation, a call ends that if
   * and only if it is a preserving rotation in SQLite that succeeds for an owner
   * with an expired row.
   */
  lemma ResidueIff(kind: Kind, cfg: Settings, s: Store, op: Op, now: real, c: Choice, s': Store, r: Reply)
    requires AllCurrent(s) && Step(kind, cfg, s, op, now, c, s', r)
    ensures AllCurrent(s') <==> !(r.Rotated? && LeavesResidue(kind, cfg, s, op, now))
  {
    PruneWithin(cfg, s, now, c.mid);
    CurrentWithin(c.mid, s);
    if op.Issue? {
      CurrentIssue(kind, cfg, s, op, now, c);
    } else if op.Claim? {
      CurrentClaim(kind, s, op, now, c);
    } else if op.Rotate? {
      CurrentRotate(kind, cfg, s, op, now, c);
    } else {
      CurrentOther(kind, cfg, s, op, now, c);
    }
  }

  lemma CurrentWithin(mid: Store, s: Store)
    requires Within(mid, s) && AllCurrent(s)
    ensures AllCurrent(mid)
  {
    forall id | id in mid.tickets ensures IsCurrent(mid, mid.tickets[id]) {
      assert IsCurrent(s, s.tickets[id]);
    }
  }

  function FirstOp(owner: string, id: string, first: nat): Op {
    Issue(owner, Some("{}"), None, false, None, false, [id], [first])
  }

  function OneRow(cfg: Settings, owner: string, id: string, first: nat, current: nat, now: real): Store {
    Store(map[id := Ticket(owner, "{}", cfg.ttl, first)], map[owner := Epoch(current, now)])
  }

  /** Such a run: a ticket is issued and expires, and its owner is rotated while the ticket is still stored. */
  lemma ExpiredRowStays(cfg: Settings, owner: string, id: string, first: nat, second: nat) returns (states: seq<Store>, events: seq<Event>)
    requires cfg.Valid() && owner != "" && id != "" && NormalizeId(id) == id && 0 < first && 0 < second && first != second
    ensures Run(Sqlite, cfg, states, events) && |events| == 2 && events[1].op == Rotate(owner, true, [second])
    ensures events[1].reply == Rotated(0, second) && events[1].now == cfg.ttl
    ensures id in states[2].tickets && states[2].tickets[id].generation == first && OnGeneration(states[2], owner, second)
  {
    var empty, one := Store(map[], map[]), OneRow(cfg, owner, id, first, first, 0.0);
    FirstStep(cfg, owner, id, first);
    SecondStep(cfg, owner, id, first, second);
    states := [empty, one, OneRow(cfg, owner, id, first, second, cfg.ttl)];
    events := [Event(FirstOp(owner, id, first), 0.0, Choice(empty, {}), Issued(id, one.tickets[id])),
               Event(Rotate(owner, true, [second]), cfg.ttl, Choice(one, {}), Rotated(0, second))];
  }

  lemma FirstStep(cfg: Settings, owner: string, id: string, first: nat)
    requires cfg.Valid() && owner != "" && id != "" && NormalizeId(id) == id && 0 < first
    ensures var empty, one := Store(map[], map[]), OneRow(cfg, owner, id, first, first, 0.0);
            Step(Sqlite, cfg, empty, FirstOp(owner, id, first), 0.0, Choice(empty, {}), one, Issued(id, one.tickets[id]))
  {
    var empty := Store(map[], map[]);
    NothingPruned(cfg, empty, 0.0);
    FirstIssue(cfg, owner, id, first);
  }

  lemma SecondStep(cfg: Settings, owner: string, id: string, first: nat, second: nat)
    requires cfg.Valid() && owner != "" && 0 < second && first != second
    ensures var one := OneRow(cfg, owner, id, first, first, 0.0);
            Step(Sqlite, cfg, one, Rotate(owner, true, [second]), cfg.ttl, Choice(one, {}),
                 OneRow(cfg, owner, id, first, second, cfg.ttl), Rotated(0, second))
  {
    var one := OneRow(cfg, owner, id, first, first, 0.0);
    OneRowPruned(cfg, owner, id, first);
    SecondRotate(cfg, owner, id, first, second);
  }

  lemma OneRowPruned(cfg: Settings, owner: string, id: string, first: nat)
    requires cfg.Valid()
    ensures var one := OneRow(cfg, owner, id, first, first, 0.0); Pruned(cfg, one, cfg.ttl, one)
  {
    var one := OneRow(cfg, owner, id, first, first, 0.0);
    assert one.tickets[id].owner == owner;
    assert Owners(one.tickets) == {owner} == one.epochs.Keys;
    NothingPruned(cfg, one, cfg.ttl);
  }

  lemma SecondRotate(cfg: Settings, owner: string, id: string, first: nat, second: nat)
    requires owner != "" && 0 < second && first != second
    ensures var one := OneRow(cfg, owner, id, first, first, 0.0);
            RotateEffect(Sqlite, one, Rotate(owner, true, [second]), cfg.ttl, Choice(one, {})) ==
            (OneRow(cfg, owner, id, first, second, cfg.ttl), Rotated(0, second))
  {
    var one := OneRow(cfg, owner, id, first, first, 0.0);
    SecondGeneration(owner, first, second);
    assert Preserved(Sqlite, one.tickets, owner, second, cfg.ttl) == one.tickets;
    assert one.epochs[owner := Epoch(second, cfg.ttl)] == map[owner := Epoch(second, cfg.ttl)];
  }

  lemma FirstIssue(cfg: Settings, owner: string, id: string, first: nat)
    requires cfg.Valid() && owner != "" && id != "" && NormalizeId(id) == id && 0 < first
    ensures var empty, one, op := Store(map[], map[]), OneRow(cfg, owner, id, first, first, 0.0), FirstOp(owner, id, first);
            && IssueEffect(Sqlite, cfg, empty, op, 0.0, Choice(empty, {})) == (one, Issued(id, one.tickets[id]))
            && Evicts(cfg, op, 0.0, Choice(empty, {}))
  {
    var empty: map<string, Epoch> := map[];
    assert NewGeneration(empty, [first]) == Some(first);
    assert PickId(FirstEight([id]), {}) == Some(id);
  }

  lemma SecondGeneration(owner: string, first: nat, second: nat)
    requires 0 < second && first != second
    ensures NewGeneration(map[owner := Epoch(first, 0.0)], [second]) == Some(second)
  {
    assert forall g :: g in LiveGenerations(map[owner := Epoch(first, 0.0)]) ==> g == first;
  }

  /** With one owner, and its ticket in its grace window, there is nothing to clean up. */
  lemma NothingPruned(cfg: Settings, s: Store, now: real)
    requires |s.epochs.Keys| <= 1 && Owners(s.tickets) == s.epochs.Keys
    requires forall id :: id in s.tickets ==> s.tickets[id].expiresAt + cfg.ttl > now
    ensures Pruned(cfg, s, now, s)
  {
    assert InGrace(cfg, s.tickets, now) == s.tickets;
    assert RecentEpochs(cfg, s.epochs, Owners(s.tickets), now) == s.epochs;
    assert s.epochs.Keys - s.epochs.Keys == {};
    assert s.epochs == s.epochs - {};
  }
}
